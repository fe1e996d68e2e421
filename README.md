# Genre lookup of the book-recommendation agent

This project models the one deterministic piece of the command-line
book-recommendation agent: the tool behind the `recommendBook` capability
that the hosted language model calls. It has two parts:

- `normalizeGenre` turns a free-text genre label into a canonical key. It
  trims the surrounding white space, lower-cases the text and replaces every
  run of white space with one `_`.
- `recommendBookFromDataset` normalises the query and keeps the books whose
  normalised `subject` equals the key. It returns the first of them in
  dataset order, or `null` when there is none.

Both are modelled as Dafny functions over values, as the TypeScript source
is a single expression chain plus a `filter` and an index:

- `options.dfy`: `Option<T>`, which stands for TypeScript's `T | null`.
- `recommend_book.dfy`, module `RecommendBook`: the `Book` record
  (`title`, `author`, `first_publish_year`, `subject`) and the three steps
  of the normalisation as `TrimStart`/`TrimEnd`/`Trim`, `Lower` and
  `CollapseWhitespace`. It also holds `NormalizeGenre`, the filter
  `FilterByGenre` and the lookup `RecommendBookFromDataset`. The contract
  of the lookup states the whole behaviour: `None` exactly when no book
  matches, and otherwise the book at the first matching index.
- `recommend_book_properties.dfy`, module `RecommendBookProperties`: the
  properties of the key (no white space, no upper case, idempotence).
  Then the spellings that share a key: case, padding, and the length of an
  interior white-space run. Then `ReplaceRuns`, an independent one-pass
  reading of `replace(/\s+/g, "_")`, proved equal to the recursive
  definition. Last, the lookup's first-match and no-match behaviour and three
  concrete scenarios: Dune, mystery/thriller, the empty dataset.

White space is the exact set JavaScript uses for both `String.prototype.trim`
and the regular-expression class `\s`. That is the ECMAScript WhiteSpace and
LineTerminator characters: tab, line feed, vertical tab, form feed, carriage
return, space, U+00A0, U+1680, U+2000–U+200A, U+2028, U+2029, U+202F,
U+205F, U+3000 and U+FEFF. Lower-casing is restricted to ASCII `A`–`Z`
(see "Left out").

The lookup is a function of its two arguments, so repeated calls with equal
inputs give equal results. The dataset is an immutable `seq<Book>`, so the
lookup cannot change it or any book in it.

## Model

| member | source | states |
|---|---|---|
| `RecommendBook.IsWhitespace` | src/ai-agent/tool/recommendBook.ts:17 | the characters that both `trim()` and `\s` treat as white space (ECMAScript WhiteSpace and LineTerminator) |
| `RecommendBook.LowerChar` | src/ai-agent/tool/recommendBook.ts:17 | one character lower-cased: a capital `A`–`Z` becomes the small letter at the same place in the alphabet, white space stays white space, any character that is not `A`–`Z` is unchanged |
| `RecommendBook.TrimStart` | src/ai-agent/tool/recommendBook.ts:17 | the leading half of `trim()`: never longer than its input (characterised by `TrimStartSpec`) |
| `RecommendBook.TrimEnd` | src/ai-agent/tool/recommendBook.ts:17 | the trailing half of `trim()`: never longer than its input (characterised by `TrimEndSpec`) |
| `RecommendBook.Trim` | src/ai-agent/tool/recommendBook.ts:17 | `trim()`: never longer than its input (characterised by `TrimSpec`) |
| `RecommendBook.TrimStartSpec` | src/ai-agent/tool/recommendBook.ts:17 | the leading half of `trim()`: the result is a suffix of the input, everything cut off is white space, and the result is empty or starts with a non-white-space character |
| `RecommendBook.TrimEndSpec` | src/ai-agent/tool/recommendBook.ts:17 | the trailing half of `trim()`: the result is a prefix, everything cut off is white space, and the result is empty or ends with a non-white-space character |
| `RecommendBook.TrimSpec` | src/ai-agent/tool/recommendBook.ts:17 | `trim()` keeps a slice `s[i..j]` with only white space before `i` and after `j`, and the slice neither starts nor ends with white space |
| `RecommendBook.Lower` | src/ai-agent/tool/recommendBook.ts:17 | `toLowerCase()` keeps the length, lowers each character and leaves no ASCII capital |
| `RecommendBook.CollapseWhitespace` | src/ai-agent/tool/recommendBook.ts:17 | the result of `replace(/\s+/g, "_")` contains no white-space character |
| `RecommendBook.CollapseKeepsLowercase` | src/ai-agent/tool/recommendBook.ts:17 | the replacement brings in no upper-case letter |
| `RecommendBook.NormalizeGenre` | src/ai-agent/tool/recommendBook.ts:16-18 | a key never contains white space or an ASCII capital |
| `RecommendBook.HasGenre` | src/ai-agent/tool/recommendBook.ts:26 | the filter's test: the book's normalised `subject` equals the key (its uses are stated by `FilterByGenre` and `RecommendBookFromDataset`) |
| `RecommendBook.FilterByGenre` | src/ai-agent/tool/recommendBook.ts:26 | `books.filter(...)` is no longer than the dataset and holds exactly the books of the dataset whose normalised subject is the key |
| `RecommendBook.FilterHeadIsFirstMatch` | src/ai-agent/tool/recommendBook.ts:26-30 | the first element of the filter is the book at the smallest index whose normalised subject is the key |
| `RecommendBook.RecommendBookFromDataset` | src/ai-agent/tool/recommendBook.ts:20-31 | `None` if and only if no book of the dataset has the query's key; otherwise the book at the first index that has it, with no earlier index matching |
| `RecommendBookProperties.TrimKeepsTrimmed` | src/ai-agent/tool/recommendBook.ts:17 | a string without white space is its own trim |
| `RecommendBookProperties.LowerKeepsLowercase` | src/ai-agent/tool/recommendBook.ts:17 | a string without ASCII capitals is its own lower case |
| `RecommendBookProperties.CollapseKeepsUnspaced` | src/ai-agent/tool/recommendBook.ts:17 | the replacement changes nothing in a string without white space |
| `RecommendBookProperties.NormalizeIdempotent` | src/ai-agent/tool/recommendBook.ts:16-18 | normalising a key gives the key back |
| `RecommendBookProperties.NormalizeKeepsKey` | src/ai-agent/tool/recommendBook.ts:16-18 | every string without white space and without ASCII capitals is a fixed point of the normalisation |
| `RecommendBookProperties.ReplaceRuns` | src/ai-agent/tool/recommendBook.ts:17 | an independent one-pass reading of `replace(/\s+/g, "_")`: a white-space character opening a run gives `_`, one continuing a run gives nothing, others are copied (proved equal to `CollapseWhitespace` by `CollapseIsReplaceRuns`) |
| `RecommendBookProperties.ReplaceRunsAppend` | src/ai-agent/tool/recommendBook.ts:17 | the one-pass scan of the replacement splits over concatenation, carrying only whether the first part ended in white space |
| `RecommendBookProperties.ReplaceRunsOfRun` | src/ai-agent/tool/recommendBook.ts:17 | a non-empty run of white space gives one `_` when it opens a run and nothing when it continues one |
| `RecommendBookProperties.ReplaceRunsSkipsRun` | src/ai-agent/tool/recommendBook.ts:17 | inside a run, the white space still ahead contributes nothing to the scan |
| `RecommendBookProperties.CollapseIsReplaceRuns` | src/ai-agent/tool/recommendBook.ts:17 | the recursive replacement equals the one-pass scan on every string |
| `RecommendBookProperties.CollapseRun` | src/ai-agent/tool/recommendBook.ts:17 | a maximal run of white space between two texts becomes exactly one `_`, and the texts on either side are replaced independently |
| `RecommendBookProperties.CollapseAroundRun` | src/ai-agent/tool/recommendBook.ts:17 | the replacement of `a + w + b` with `w` a white-space run is the scan of `a`, then one `_` unless `a` already ended in white space, then the scan of `b` continuing a run |
| `RecommendBookProperties.CollapseRunLength` | src/ai-agent/tool/recommendBook.ts:17 | after the replacement, the length of a white-space run makes no difference |
| `RecommendBookProperties.TrimStartAppend` | src/ai-agent/tool/recommendBook.ts:17 | trimming the start of `a + c` trims into `c` only when `a` is all white space |
| `RecommendBookProperties.TrimEndAppend` | src/ai-agent/tool/recommendBook.ts:17 | trimming the end of `a + c` trims into `a` only when `c` is all white space |
| `RecommendBookProperties.TrimPadding` | src/ai-agent/tool/recommendBook.ts:17 | white space added at either end does not change `trim()` |
| `RecommendBookProperties.TrimAroundRun` | src/ai-agent/tool/recommendBook.ts:17 | `trim()` of `a + w + b` with `w` white space, by whether `a` or `b` is all white space |
| `RecommendBookProperties.LowerAppend` | src/ai-agent/tool/recommendBook.ts:17 | lower-casing splits over concatenation |
| `RecommendBookProperties.LowerTrimStart` | src/ai-agent/tool/recommendBook.ts:17 | lower-casing and trimming the start commute |
| `RecommendBookProperties.LowerTrimEnd` | src/ai-agent/tool/recommendBook.ts:17 | lower-casing and trimming the end commute |
| `RecommendBookProperties.LowerTrim` | src/ai-agent/tool/recommendBook.ts:17 | lower-casing and `trim()` commute |
| `RecommendBookProperties.LowerAroundRun` | src/ai-agent/tool/recommendBook.ts:17 | lower-casing `a + w + b` with `w` white space lowers `a` and `b` and keeps `w` |
| `RecommendBookProperties.NormalizeIgnoresCase` | src/ai-agent/tool/recommendBook.ts:17 | two strings with the same lower case have the same key |
| `RecommendBookProperties.LowerUpToCase` | src/ai-agent/tool/recommendBook.ts:17 | two strings that differ only in the case of ASCII letters have the same lower case |
| `RecommendBookProperties.NormalizeCaseInsensitive` | src/ai-agent/tool/recommendBook.ts:16-18 | two spellings that differ only in the case of ASCII letters have the same key |
| `RecommendBookProperties.NormalizeIgnoresPadding` | src/ai-agent/tool/recommendBook.ts:17 | white space before and after a genre does not change its key |
| `RecommendBookProperties.NormalizeIgnoresRunLength` | src/ai-agent/tool/recommendBook.ts:17 | a genre with a longer or shorter white-space run anywhere gets the same key |
| `RecommendBookProperties.TwoWordKey` | src/ai-agent/tool/recommendBook.ts:16-18 | two lower-case words with white space between them have the key `word_word` |
| `RecommendBookProperties.ScienceFictionSpellings` | src/ai-agent/tool/recommendBook.ts:16-18 | `"science fiction"`, `"science  fiction"`, `"Science Fiction"`, `"  SCIENCE   FICTION "` and `"science_fiction"` all have the key `"science_fiction"` |
| `RecommendBookProperties.RecommendPicksFirstMatch` | src/ai-agent/tool/recommendBook.ts:26-30 | when index `i` is the first whose subject has the query's key, the answer is the book at `i` |
| `RecommendBookProperties.RecommendEmptyDataset` | src/ai-agent/tool/recommendBook.ts:28 | an empty dataset always gives `None` |
| `RecommendBookProperties.RecommendSameKey` | src/ai-agent/tool/recommendBook.ts:24 | two queries with the same key get the same answer |
| `RecommendBookProperties.MysteryKey` | src/ai-agent/tool/recommendBook.ts:16-18 | `"mystery"` is its own key |
| `RecommendBookProperties.ThrillerKey` | src/ai-agent/tool/recommendBook.ts:16-18 | `"thriller"` is its own key |
| `RecommendBookProperties.RecommendNoMatch` | src/ai-agent/tool/recommendBook.ts:26-28 | a dataset with only a `"mystery"` book gives `None` for `"thriller"` |
| `RecommendBookProperties.RecommendDune` | src/ai-agent/tool/recommendBook.ts:20-31 | the query `"Science Fiction"` over a dataset with only Dune (subject `"science_fiction"`) returns Dune |

## Left out

- `LowerChar`, `Lower`: lower-case only the ASCII letters `A`–`Z`, because JavaScript's `toLowerCase` uses the full Unicode case mapping, some of which changes the length of the string. The no-upper-case property is stated for `A`–`Z` only.
- Strings are sequences of Unicode scalar values. JavaScript strings are sequences of UTF-16 code units, possibly with lone surrogates. This does not change which characters are white space, since they all lie in the Basic Multilingual Plane.
- `first_publish_year` is an unbounded `int`; in JavaScript it is a floating-point `number`, which the lookup never inspects.
- The dataset is passed as an immutable sequence. JavaScript aliasing of the array and of its book objects is not modelled, so the lookup not changing the dataset holds by construction and is not a separate lemma.
- The `zod` schema `recommendBookParams` (src/ai-agent/tool/recommendBook.ts:10-14) is a call into a validation library.
- `loadBooks` (src/ai-agent/index.ts:18-40) is left out: file-system checks, file reading and `JSON.parse`.
- `main` (src/ai-agent/index.ts:42-133) is left out: the API-key check, the read-line loop with its `exit` test, the calls to the hosted model and the streaming to the terminal. The shaping of the tool result (src/ai-agent/index.ts:60-82) is a copy of the book's fields into an untyped object.
- src/data-ingestion/fetch_books.py is left out: HTTP requests to Open Library and writing JSON to disk.
