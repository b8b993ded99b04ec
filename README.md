# Product Hub, modelled in Dafny

Product Hub is a small Next.js workspace. It has two parts:

- a **docs** section, which lists the markdown files of a content folder;
- a **prototypes** section, which lists the sub-folders of a prototypes folder and renders the registered ones.

The deterministic rules behind the site are modelled here, with their properties proved:

- the docs listing transform (`getDocs`);
- the prototype listing and its display names (`getPrototypes` and the card title);
- the prototype registry lookup (`getPrototypeComponent`);
- the sidebar's active-section rule (`isActive`);
- the state logic of three prototypes: the AI career coach, the bouncing ball and the counter.

| file | module | models |
|---|---|---|
| `percent.dfy` | `Percent` | the clamp into [0, 100] that the ball and the goal progress share |
| `opt.dfy` | `Opt` | `Option`, standing in for `null` and for a failed read |
| `seqs.dfy` | `Seqs` | `Array.prototype.filter` and `map` on sequences |
| `text.dfy` | `Text` | the JavaScript string operations the core uses, over ASCII |
| `docs_listing.dfy` | `DocsListing` | `getDocs` in `app/page.tsx` |
| `prototype_listing.dfy` | `PrototypeListing` | `getPrototypes`, the display name and the card link in `app/prototypes/page.tsx` |
| `registry.dfy` | `Registry` | the `prototypes` table and `getPrototypeComponent` |
| `sidebar.dfy` | `Sidebar` | `isActive` in `components/Sidebar.tsx` |
| `career_coach.dfy` | `CoachPrototype` | the career-coach component's state, as a class with one method per handler |
| `bouncing_ball.dfy` | `BouncingBall` | the per-tick ball update, as a class with a `Tick` method |
| `counter.dfy` | `CounterPrototype` | the counter, as a class with three handlers |

How the inputs are modelled:

- **Filesystem.** A directory listing is an input:
  - `None` stands for a `readdir` that threw.
  - Each markdown file's front-matter parse is an entry of a map from file name to `(data, content)`.
  - A name missing from that map stands for a `readFile` or parse that threw.
- **Timers.** The coach's delayed reply is a separate step, `DeliverReply`. The ball's 16 ms interval is one `Tick` call per firing.
- **Order.** The docs listing keeps directory order, because `Promise.all` over a `map` preserves it; `DocsListing.ListingOrder` proves it.

## Model

| member | source | states |
|---|---|---|
| Seqs.Filter | app/prototypes/page.tsx:10 | the result holds exactly the kept elements of the input, no more and no others |
| Seqs.FilterConcat | app/page.tsx:11-12 | filtering distributes over concatenation, so filtering keeps input order |
| Seqs.FilterKeepsAll | app/page.tsx:12 | a filter that keeps every element returns the input unchanged |
| Seqs.Map | app/prototypes/page.tsx:11 | same length as the input, element `i` is `f` of input element `i` |
| Seqs.MapConcat | app/page.tsx:13 | mapping distributes over concatenation, so mapping keeps input order |
| Text.UpperChar | app/prototypes/page.tsx:104 | ASCII `toUpperCase`: lower-case letters move up by 32, all else unchanged, word characters stay word characters |
| Text.LowerChar | prototypes/ai-career-coach/index.tsx:133 | ASCII `toLowerCase` of one character: upper-case letters move down by 32, all else unchanged |
| Text.UpperCharIdempotent | app/prototypes/page.tsx:104 | upper-casing twice equals upper-casing once |
| Text.ToLower | prototypes/ai-career-coach/index.tsx:133 | `toLowerCase`: same length, lower-cased pointwise, no upper-case letter left |
| Text.ToLowerNoUpper | prototypes/ai-career-coach/index.tsx:133 | a string without upper-case letters lower-cases to itself |
| Text.IsSpace | app/page.tsx:21 | definition: the ASCII characters `trim` removes (space, tab, LF, VT, FF, CR); used by `Trim` and its lemmas |
| Text.IsWordChar | app/prototypes/page.tsx:104 | definition: the class `\w`; used by `CapitalizeWords` and the display-name lemmas |
| Text.StartsWith | components/Sidebar.tsx:10-11 | definition of `startsWith`; its properties are used by the `Sidebar` lemmas and `Cards` |
| Text.EndsWith | app/page.tsx:12 | definition of `endsWith`; used by `DocsListing.IsMarkdown` |
| Text.OccursAtShift | app/page.tsx:20 | an occurrence at `j >= 1` is an occurrence at `j - 1` of the tail |
| Text.IndexOf | app/page.tsx:20 | `indexOf`: a found index is the leftmost occurrence, and `-1` means no occurrence anywhere |
| Text.Contains | prototypes/ai-career-coach/index.tsx:135-141 | definition of `includes` through `IndexOf`; characterised by `ContainsIff`, `ContainsInfix` and `NoOccurrence` |
| Text.ContainsIff | prototypes/ai-career-coach/index.tsx:135-143 | `includes` holds exactly when the pattern occurs at some index |
| Text.ContainsInfix | prototypes/ai-career-coach/index.tsx:135-143 | `a + p + b` includes `p` |
| Text.NoOccurrence | app/page.tsx:20 | a pattern whose first character is absent from the string occurs nowhere |
| Text.ReplaceFirst | app/page.tsx:20-21 | `replace` with a string pattern: without an occurrence the string is unchanged; otherwise only the leftmost occurrence is replaced |
| Text.FirstLine | app/page.tsx:21 | `split('\n')[0]`: a prefix with no line feed, ending at the end of the string or just before its first line feed |
| Text.TrimStart | app/page.tsx:21 | cuts a whitespace-only prefix, and what remains does not start with whitespace |
| Text.TrimEnd | app/page.tsx:21 | cuts a whitespace-only suffix, and what remains does not end with whitespace |
| Text.Trim | app/page.tsx:21 | `trim`: the result is a slice of the input with only whitespace around it, and has no whitespace at either end |
| Text.TrimStartAllSpace | prototypes/ai-career-coach/index.tsx:149 | a whitespace-only string trims to empty |
| Text.TrimStartPrefix | app/page.tsx:21 | leading whitespace before non-blank text is cut exactly |
| Text.TrimEndSuffix | app/page.tsx:21 | trailing whitespace after non-blank text is cut exactly |
| Text.TrimSurrounded | prototypes/ai-career-coach/index.tsx:149-151 | whatever whitespace surrounds a text, trimming returns exactly that text |
| Text.TrimUnpadded | app/page.tsx:21 | a text without surrounding whitespace trims to itself |
| Text.TrimLeadingBlank | app/page.tsx:21 | one leading blank is trimmed away |
| DocsListing.IsMarkdown | app/page.tsx:12 | definition: the name ends in `.md`; its cases are proved by `BackupNotListed` and `NonMarkdownIgnored` |
| DocsListing.MarkdownFiles | app/page.tsx:11-12 | definition: the `.md` filter over `Seqs.Filter`, whose contract gives exactly the markdown names in order |
| DocsListing.Slug | app/page.tsx:20 | definition: `ReplaceFirst(name, ".md", "")`; its properties are proved in `SlugOfPlainName`, `SlugDeletesFirstOccurrence`, `DoubleExtensionSlug` and `PlainSlug` |
| DocsListing.Truthy | app/page.tsx:21-22 | definition: a string key is truthy when present and non-empty |
| DocsListing.FallbackTitle | app/page.tsx:21 | definition of the body-derived title; its properties are proved in `HeadingTitle`, `HeadingText`, `HashText` and the heading examples |
| DocsListing.Title | app/page.tsx:21 | definition: `data.title` when truthy, else the fallback; its properties are proved in `FrontMatterTitleWins` and `EmptyTitleFallsBack` |
| DocsListing.Date | app/page.tsx:22 | definition: `data.date` when truthy, else `null`; its properties are proved in `Defaults` |
| DocsListing.Tags | app/page.tsx:23 | definition: `data.tags` when present, else `[]`; its properties are proved in `Defaults` |
| DocsListing.Summarize | app/page.tsx:19-24 | definition of one summary: slug, title, date and tags, and no body |
| DocsListing.SummarizeAll | app/page.tsx:13-25 | one summary per markdown file, in order, each built from that file's parse |
| DocsListing.GetDocs | app/page.tsx:6-31 | a failed listing or any unreadable markdown file gives `[]`; otherwise summary `i` is the summary of markdown file `i` |
| DocsListing.OneSummaryPerMarkdownFile | app/page.tsx:10-13 | every markdown entry has its summary in the result, and every summary comes from a markdown entry |
| DocsListing.SummarizeAllConcat | app/page.tsx:10-13 | summarising a concatenated listing concatenates the summaries |
| DocsListing.ListingOrder | app/page.tsx:10-13 | the summaries follow directory order |
| DocsListing.UnreadableFileEmptiesListing | app/page.tsx:28-30 | one unreadable markdown file makes the whole result `[]` |
| DocsListing.NonMarkdownIgnored | app/page.tsx:12 | an entry not ending in `.md` changes nothing, even when it cannot be read |
| DocsListing.SlugOfPlainName | app/page.tsx:20 | when `.md` occurs only as the suffix, the slug drops the last three characters, and slug plus `.md` is the name |
| DocsListing.SlugDeletesFirstOccurrence | app/page.tsx:20 | the first `.md` is deleted and any later text, including a later `.md`, is kept |
| DocsListing.DoubleExtensionSlug | app/page.tsx:20 | `notes.md.md` has the slug `notes.md` |
| DocsListing.PlainSlug | app/page.tsx:20 | `guide.md` has the slug `guide` |
| DocsListing.BackupNotListed | app/page.tsx:12 | `a.md.bak` does not end in `.md` and is not listed |
| DocsListing.FrontMatterTitleWins | app/page.tsx:21 | a truthy front-matter title is the title, whatever the body says |
| DocsListing.EmptyTitleFallsBack | app/page.tsx:21 | an absent or empty front-matter title falls back to the body's first line |
| DocsListing.FirstLineOf | app/page.tsx:21 | the first line of `line + "\n" + body` is `line` |
| DocsListing.FirstLineOfSingle | app/page.tsx:21 | content without a line feed is its own first line |
| DocsListing.DropLeadingHash | app/page.tsx:21 | removing the first `#` of `"#" + line` gives `line` |
| DocsListing.HeadingTitle | app/page.tsx:21 | a first line `#rest` gives `rest` trimmed, whatever follows the line |
| DocsListing.HeadingOnlyTitle | app/page.tsx:21 | the same for content that is a single line |
| DocsListing.HeadingText | app/page.tsx:21 | a heading `# t` gives the title `t` |
| DocsListing.HeadingTextWithBody | app/page.tsx:21 | a heading `# t` followed by a body gives the title `t` |
| DocsListing.HashText | app/page.tsx:21 | `#t` with no blank gives `t` |
| DocsListing.HeadingExample | app/page.tsx:21 | `# Hi` gives `Hi` |
| DocsListing.HeadingWithBodyExample | app/page.tsx:21 | `# Hi` followed by a blank line and a body gives `Hi` |
| DocsListing.DoubleHeadingExample | app/page.tsx:21 | `## Hi` gives `# Hi`: only the first `#` goes |
| DocsListing.Defaults | app/page.tsx:22-23 | a missing or empty date becomes `null` and a truthy one is kept; missing tags become `[]` and present tags are kept |
| PrototypeListing.IsDirectory | app/prototypes/page.tsx:10 | definition: `dirent.isDirectory()`; used by `GetPrototypes` |
| PrototypeListing.GetPrototypes | app/prototypes/page.tsx:5-16 | a failed read gives `[]`; otherwise every listed name is a directory entry's name, every directory entry's name is listed, and there are no more names than entries |
| PrototypeListing.ListingOrder | app/prototypes/page.tsx:9-11 | the names follow directory order |
| PrototypeListing.DirectoryListed | app/prototypes/page.tsx:9-11 | a directory appended to the listing adds exactly its own name, once, at the end; with `FilesDropped` and `ListingOrder` this fixes the result as the directory names in listing order |
| PrototypeListing.FilesDropped | app/prototypes/page.tsx:10 | a plain file adds nothing to the listing |
| PrototypeListing.DashesToSpaces | app/prototypes/page.tsx:104 | `replace(/-/g, ' ')`: same length, every `-` becomes a space, every other character is kept |
| PrototypeListing.CapitalizeWords | app/prototypes/page.tsx:104 | `replace(/\b\w/g, toUpperCase)`: word starts are upper-cased, all other characters are kept |
| PrototypeListing.WordStart | app/prototypes/page.tsx:104 | definition of where `\b\w` matches: a word character at the start or after a non-word character |
| PrototypeListing.DisplayName | app/prototypes/page.tsx:104 | same length; a character is upper-cased exactly at a word start of the dash-replaced name |
| PrototypeListing.DisplayNameHasNoDash | app/prototypes/page.tsx:104 | the display name has no `-`, and each `-` became a space |
| PrototypeListing.DisplayNameKeepsOthers | app/prototypes/page.tsx:104 | a character that is neither `-` nor a word start is shown unchanged |
| PrototypeListing.NoDashesUnchanged | app/prototypes/page.tsx:104 | without a `-`, the dash replacement changes nothing |
| PrototypeListing.DisplayNameIdempotent | app/prototypes/page.tsx:104 | deriving the display name of a display name changes nothing |
| PrototypeListing.DashesConcat | app/prototypes/page.tsx:104 | the dash replacement distributes over concatenation |
| PrototypeListing.SpacedAround | app/prototypes/page.tsx:104 | two dash-free words joined by `-` come out joined by a space |
| PrototypeListing.CapitalizeTwoWords | app/prototypes/page.tsx:104 | two lower-case words separated by a space get their initials upper-cased and nothing else |
| PrototypeListing.TwoWordName | app/prototypes/page.tsx:104 | a folder name `a-b` of two lower-case words is shown as the two words capitalised, separated by a space |
| PrototypeListing.BouncingBallName | app/prototypes/page.tsx:104 | `bouncing-ball` is shown as `Bouncing Ball` |
| PrototypeListing.CardFor | app/prototypes/page.tsx:104-109 | definition of one card: `/prototypes/` plus the folder name, titled with the display name; its properties are proved in `Cards` |
| PrototypeListing.Cards | app/prototypes/page.tsx:104-109 | one card per prototype, in order; each links to `/prototypes/` plus the raw folder name, and its title is the display name |
| Registry.GetPrototypeComponent | app/prototypes/registry.ts:12-18 | non-null exactly for registered slugs; the wrapper carries that slug's loader and disables server rendering |
| Registry.RegisteredSlugs | app/prototypes/registry.ts:7-10 | exactly `bouncing-ball` and `counter` are registered |
| Registry.RegisteredLoaders | app/prototypes/registry.ts:8-9 | each registered slug resolves to its own folder's module |
| Registry.ExactMatch | app/prototypes/registry.ts:13 | `Counter`, `counter `, `bouncing_ball` and the empty slug give `null`: no normalisation |
| Registry.UnregisteredIsNull | app/prototypes/registry.ts:13-16 | every unregistered slug gives `null` |
| Sidebar.IsActive | components/Sidebar.tsx:9-12 | definition of `isActive`; its properties are proved in `DocsActiveIff`, `OtherActiveIff`, `HomePage`, `PrefixNotSegment` and `NeverBothActive` |
| Sidebar.DocsActiveIff | components/Sidebar.tsx:10 | Docs is active exactly on `/` or on a path starting with `/docs` |
| Sidebar.OtherActiveIff | components/Sidebar.tsx:11 | any other item is active exactly when the pathname starts with its path |
| Sidebar.HomePage | components/Sidebar.tsx:10-11 | on `/`, Docs is active and Prototypes is not |
| Sidebar.PrefixNotSegment | components/Sidebar.tsx:10-11 | `/docsfoo` activates Docs; `/prototypes/counter` and `/prototypesx` activate Prototypes |
| Sidebar.NeverBothActive | components/Sidebar.tsx:9-12 | the Docs and Prototypes items are never both active |
| CoachPrototype.MentionsPromotion | prototypes/ai-career-coach/index.tsx:135 | definition of the first rule's test: `promotion` or `promote` is included; used by `ReplyKey` |
| CoachPrototype.MentionsBalance | prototypes/ai-career-coach/index.tsx:137 | definition of the second rule's test: `balance` or `work-life` is included; used by `ReplyKey` |
| CoachPrototype.MentionsChange | prototypes/ai-career-coach/index.tsx:139 | definition of the third rule's test: `change` or `transition` is included; used by `ReplyKey` |
| CoachPrototype.MentionsHello | prototypes/ai-career-coach/index.tsx:141 | definition of the fourth rule's test: `hello` or `hi` is included; used by `ReplyKey` |
| CoachPrototype.ReplyKey | prototypes/ai-career-coach/index.tsx:132-145 | the reply key is a table key; each key is chosen exactly when its keywords occur in the lower-cased message and no earlier rule's keywords do |
| CoachPrototype.SimulateCoachResponse | prototypes/ai-career-coach/index.tsx:32-38 | the reply is always one of the five table values, the one under the chosen key |
| CoachPrototype.ToLowerConcat | prototypes/ai-career-coach/index.tsx:133 | lower-casing distributes over concatenation |
| CoachPrototype.KeywordSurvivesLowering | prototypes/ai-career-coach/index.tsx:133-143 | a lower-case keyword anywhere in a message is still included after the message is lower-cased |
| CoachPrototype.MentionsPromotionInfix | prototypes/ai-career-coach/index.tsx:135 | a message containing `promotion` passes the promotion test |
| CoachPrototype.PromotionHasPriority | prototypes/ai-career-coach/index.tsx:135-136 | a message containing `promotion` gets the promotion reply, whatever else it says |
| CoachPrototype.ContainsNeedsRoom | prototypes/ai-career-coach/index.tsx:135-143 | a keyword longer than the message is not included in it |
| CoachPrototype.SubstringGreeting | prototypes/ai-career-coach/index.tsx:141-142 | `this` gets the greeting, because `hi` matches as a substring |
| CoachPrototype.CaseInsensitive | prototypes/ai-career-coach/index.tsx:133 | `HI` gets the greeting, because the message is lower-cased first |
| CoachPrototype.ToggleOne | prototypes/ai-career-coach/index.tsx:177-179 | definition of the `map` callback: flip `completed` when the id matches |
| CoachPrototype.Toggled | prototypes/ai-career-coach/index.tsx:175-181 | definition: `Seqs.Map` of `ToggleOne`; its properties are proved in `ToggledAt` and `ToggleTwice` |
| CoachPrototype.ToggledAt | prototypes/ai-career-coach/index.tsx:175-181 | toggling keeps the length, flips `completed` on entries with the id and keeps every other entry and field |
| CoachPrototype.ToggleTwice | prototypes/ai-career-coach/index.tsx:175-181 | toggling the same id twice restores the list |
| CoachPrototype.SetProgress | prototypes/ai-career-coach/index.tsx:185-187 | definition of the `map` callback: clamp and set `progress` when the id matches |
| CoachPrototype.WithProgress | prototypes/ai-career-coach/index.tsx:183-189 | definition: `Seqs.Map` of `SetProgress`; its properties are proved in `WithProgressAt` and `WithProgressKeepsRange` |
| CoachPrototype.WithProgressAt | prototypes/ai-career-coach/index.tsx:183-189 | the update keeps the length, clamps the progress of goals with the id and keeps every other goal and field |
| CoachPrototype.WithProgressKeepsRange | prototypes/ai-career-coach/index.tsx:183-189 | progress stays in [0,100] after any update, including the -10 and +10 buttons |
| CoachPrototype.CareerCoach.constructor | prototypes/ai-career-coach/index.tsx:41-93 | the component starts in onboarding at step 0, with no messages, empty input, no typing, and the two goals and three recommendations |
| CoachPrototype.CareerCoach.AddMessage | prototypes/ai-career-coach/index.tsx:122-130 | appends exactly one message with the given role and content; earlier messages and all other state are unchanged |
| CoachPrototype.CareerCoach.OnboardingSubmit | prototypes/ai-career-coach/index.tsx:112-120 | before the last question the step advances and nothing else changes; at the last one the view becomes the dashboard and one welcome message is appended |
| CoachPrototype.CareerCoach.EditInput | prototypes/ai-career-coach/index.tsx:536 | the input field holds the typed text |
| CoachPrototype.CareerCoach.SendMessage | prototypes/ai-career-coach/index.tsx:148-155 | blank input changes nothing; otherwise the trimmed input is appended as a user message, the input is cleared and typing starts |
| CoachPrototype.CareerCoach.DeliverReply | prototypes/ai-career-coach/index.tsx:157-161 | appends the coach's reply to the sent message and stops typing |
| CoachPrototype.CareerCoach.PressEnter | prototypes/ai-career-coach/index.tsx:164-173 | Shift+Enter changes nothing; Enter in the onboarding view has exactly the effect of `OnboardingSubmit` on step, view and messages, and elsewhere exactly the effect of `SendMessage` on messages, input, typing and the pending reply |
| CoachPrototype.CareerCoach.ToggleRecommendation | prototypes/ai-career-coach/index.tsx:175-181 | the recommendations afterwards are the toggled list of those before |
| CoachPrototype.CareerCoach.UpdateGoalProgress | prototypes/ai-career-coach/index.tsx:183-189 | the goals afterwards are the updated list of those before, and all progress stays in [0,100] |
| CoachPrototype.FinishOnboarding | prototypes/ai-career-coach/index.tsx:104-120 | five submissions from the start reach the dashboard at the last step, with exactly the welcome message |
| Percent.Clamp | prototypes/bouncing-ball/index.tsx:17 | the result is in [0,100]: in-range values are kept and out-of-range ones go to the nearer bound; the same clamp is applied to goal progress at prototypes/ai-career-coach/index.tsx line 186 |
| BouncingBall.HitsWall | prototypes/bouncing-ball/index.tsx:15-19 | definition of the wall test: the candidate is `>= 100` or `<= 0`; used by `Step` |
| BouncingBall.Step | prototypes/bouncing-ball/index.tsx:12-24 | the new coordinate is in the box; an in-range candidate is kept and a candidate past a wall stops at that wall; the velocity flips exactly when the candidate reaches or passes a wall |
| BouncingBall.Run | prototypes/bouncing-ball/index.tsx:10-26 | definition of `n` successive ticks of one axis; its properties are proved in `StaysInBox`, `SpeedPreserved` and `Animate` |
| BouncingBall.StaysInBox | prototypes/bouncing-ball/index.tsx:6-24 | from inside the box, the coordinate stays inside after any number of ticks |
| BouncingBall.SpeedPreserved | prototypes/bouncing-ball/index.tsx:16-20 | bouncing changes only the direction of a velocity, never its size |
| BouncingBall.RunAdd | prototypes/bouncing-ball/index.tsx:10-26 | ticking `m` and then `n` times is ticking `m + n` times |
| BouncingBall.FreeFlight | prototypes/bouncing-ball/index.tsx:12-14 | while the position after `k` ticks stays strictly inside the box, no wall is hit and the axis moves by `k` times its velocity |
| BouncingBall.FirstBounce | prototypes/bouncing-ball/index.tsx:6-24 | from the start position 50 with velocity 2 an axis is at 98 after 24 ticks, reaches 100 and turns on tick 25, is at 2 after 74 ticks, and reaches 0 and turns again on tick 75 |
| BouncingBall.Ball.constructor | prototypes/bouncing-ball/index.tsx:6-7 | the ball starts at (50,50) with velocity (2,2), inside the box |
| BouncingBall.Ball.Tick | prototypes/bouncing-ball/index.tsx:11-25 | each axis is updated by `Step` on its own old position and velocity, independently of the other; the ball stays in the box |
| BouncingBall.Animate | prototypes/bouncing-ball/index.tsx:10-26 | `n` ticks move each axis as `n` steps of `Step` do |
| CounterPrototype.Counter.constructor | prototypes/counter/index.tsx:6 | the count starts at 0 |
| CounterPrototype.Counter.Decrease | prototypes/counter/index.tsx:15 | the count drops by one, with no lower bound |
| CounterPrototype.Counter.Reset | prototypes/counter/index.tsx:21 | the count becomes 0, whatever it was |
| CounterPrototype.Counter.Increase | prototypes/counter/index.tsx:27 | the count rises by one |
| CounterPrototype.IncreaseThenDecrease | prototypes/counter/index.tsx:15-27 | Increase followed by Decrease restores the count |
| CounterPrototype.DecreaseBelowZero | prototypes/counter/index.tsx:6-21 | a fresh counter reaches -1 after one Decrease, and Reset returns it to 0 |

## Left out

- Filesystem access (`readdir`, `readFile`, `process.cwd`, `path.join`): directory listings and file contents are inputs, and a thrown error is an absent value.
- Front-matter parsing (`gray-matter`): its `(data, content)` output is an input. Only string `title` and `date` values and string-list `tags` are modelled; other YAML value types, such as a parsed date object, are not.
- `dynamic()`, the dynamic `import()` and code splitting: a loader is an opaque token naming its module path, and a lazy component is that token plus the `ssr` flag.
- Registry.GetPrototypeComponent: the table is a finite map. The real lookup reads a plain object, so an inherited key such as `constructor` or `toString` gives a truthy value and not `null`.
- JSX, styling, the colour cycling of prototype cards, `app/layout.tsx`, and the single-document page `app/docs/[slug]/page.tsx`.
- Unicode: `trim`, `toLowerCase`, `toUpperCase` and `\w` are modelled on ASCII only.
- Timer delays and randomness: the `setTimeout` delay of 1-2 s and the 16 ms `setInterval` are left out. The delayed reply is the explicit `DeliverReply` step, and each interval firing is one `Tick`.
- CoachPrototype.CareerCoach.SendMessage: message ids (`Date.now()`) and timestamps (`new Date()`) are not modelled. The model does not rely on ids being unique.
- The coach's profile answers and the onboarding question texts, including the greeting interpolated with the entered name, are left out.
- The disabled state of buttons is left out. Keyboard Enter bypasses it anyway, and `PressEnter` models that path.
- View navigation buttons, which only set the view, are left out.
- The hard-coded dashboard statistics, scrolling, `useRef`, and locale date and time formatting are left out.
- The quick-topic buttons (prototypes/ai-career-coach/index.tsx:476-487) are left out. Each sets the input and calls the send handler 100 ms later, but that handler is the closure of the render in which the button was clicked, so it always sees the input as it was before the click and never sends the topic itself. The buttons also render only while there are no messages (line 468), which never holds after onboarding, because completing onboarding appends the welcome message (line 118).
- BouncingBall.Ball.Tick: `Tick` reads the current velocity, as the interval does after the effect re-subscribes on every velocity change. It does not model a firing that races the re-subscription, nor the double call of the state updater in React's development strict mode.
