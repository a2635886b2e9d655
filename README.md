# Issue-to-work-item mirror: the string and list layer

This project models the deterministic core of a GitHub Action that mirrors a
GitHub issue or pull request into an Azure DevOps work item (`index.js`). The
script decides whether to run (a label gate), looks for an `AB#<id>`
back-reference marker in the item's body (`find`), and if there is none it
builds a JSON-patch document for the new work item (`create`) and appends
`\n\nAB#<id>` to the body (`main`). That marker is the script's only guard
against creating a second mirror for the same item.

Modules, one per part of `index.js`:

- `Digits`: the regex class `\d`, greedy digit runs, and the decimal text of a
  number (`"" + n` for integer ids) with its inverse.
- `Marker`: `find` (an `includes("AB#")` test, then the leftmost match of
  `AB#(\d+)`), the write-back body, and the round trip between them.
- `Gate`: the label rule at the head of `main`.
- `Title`: `formatTitle`, and a reader that recovers kind, number and title
  from it.
- `ItemFields`: `split("/")`, the short repository name, the tag string and
  the work-item type.
- `PatchDocument`: the patch document as a value (`Document`) and the builder
  that pushes entries onto it as `create` does (`BuildDocument`).
- `Pipeline`: the inputs as one `Config` record, the issue or PR as a class
  whose `body` changes in place, the decision `main` takes, and one run of
  `main` as a method.

Every input that `core.getInput` reads is a string, and an input that is not
set is the empty string. JavaScript truthiness of such a string is modelled
as "non-empty". A value that may be `null` or `undefined` is an `Option`.

## Model

| member | source | states |
|---|---|---|
| `Digits.DigitRunEnd` | index.js:226 | the end of the greedy `\d*` run from an index (the index itself when no digit is there): every character before the end is a digit and the end is the string's end or a non-digit; after `AB#` followed by a digit this is where the `\d+` capture stops |
| `Digits.NatToDecimal` | index.js:47 | the decimal text of an id is non-empty, all digits, and starts with `0` only for 0 |
| `Digits.DecimalRoundTrip` | index.js:47 | reading the decimal text of `n` back gives `n` |
| `Digits.DecimalCanonical` | index.js:81 | a digit string without leading zeros is the decimal text of the number it denotes, so the decimal text is the only such spelling |
| `Marker.Includes` | index.js:225 | `includes` is true exactly when the substring occurs at some index |
| `Marker.FirstMarker` | index.js:226-227 | returns the leftmost index where `AB#` followed by a digit occurs, with no such index before it; None when there is none |
| `Marker.Find` | index.js:219-234 | null exactly when the body is absent or holds no `AB#` followed by a digit; otherwise a non-empty digit string that is the maximal digit run after the first such `AB#` |
| `Marker.WithMarker` | index.js:46-47 | the new body has the old body (empty when absent) as a prefix, followed by `\n\nAB#` and the decimal id |
| `Marker.NewMarkerFound` | index.js:225-230 | after the write-back on a body without a marker, `find` returns exactly the decimal id written |
| `Marker.OldMarkerKept` | index.js:225-230 | after the write-back on a body with a marker, `find` still returns that earlier marker |
| `Gate.SomeNamed` | index.js:11 | `labels.some(l => l.name === name)` is true exactly when some label has that exact name |
| `Gate.Skips` | index.js:11-14 | the run is skipped exactly when a non-empty label is configured and no label of the item has that name |
| `Title.FormatTitle` | index.js:77-82 | the title starts with `[GitHub ` and ends with the original title |
| `Title.TitleRoundTrip` | index.js:77-82 | reading the title back with a reader that accepts only `[GitHub issue #` or `[GitHub PR #`, a number without leading zeros, `] ` and the rest gives the kind, the number and the title |
| `Title.FormatParsedTitle` | index.js:77-82 | every title that reader accepts is exactly what `formatTitle` writes for the parts read, so with `TitleRoundTrip` the title is exactly `[GitHub issue #n] t` or `[GitHub PR #n] t` with `n` in plain decimal |
| `ItemFields.Split` | index.js:112 | `split` on one character: never empty, no segment contains the separator, joining the segments gives the input back, one segment exactly when the separator is absent |
| `ItemFields.SplitJoin` | index.js:112 | splitting undoes joining separator-free segments |
| `ItemFields.ShortRepoName` | index.js:112 | the result is segment 1 of splitting at `/`; it exists exactly when the full name has a `/`, and holds no `/` |
| `ItemFields.ShortRepoNameOf` | index.js:112 | for `owner/name` the short name is `name` |
| `ItemFields.Tags` | index.js:113 | with tags configured the result is the tags, `;` and the short repository name (written `undefined` when there is none); without, it is the short repository name; it is undefined only when neither exists |
| `ItemFields.TagsOf` | index.js:112-113 | for `owner/name` the tags are `<ado_tags>;name`, or `name` when none are configured |
| `ItemFields.ItemType` | index.js:114 | the configured work-item type when non-empty, otherwise `Bug`; never empty |
| `PatchDocument.ParentUrl` | index.js:150-151 | the parent URL is `https://dev.azure.com/<org>` followed by `/_workitems/edit/<parent>` |
| `PatchDocument.Document` | index.js:118-178 | every op is `add`; Title, Description, ReproSteps, Tags and the Hyperlink come first in that order; the parent relation is entry 5 and present only when a parent is set; AreaPath follows; OSG.Product is last and present only when a product is set; length 6 + [parent] + [product] |
| `PatchDocument.BuildDocument` | index.js:118-178 | the array built by the literal and the conditional pushes is exactly `Document` |
| `Pipeline.Decide` | index.js:11-43 | skip exactly at the label gate; stop at an existing marker exactly when the check is on and the body holds one, returning what `find` returns; create otherwise |
| `Pipeline.Run` | index.js:5-47 | the outcome follows `Decide` on the old body; on creation it carries the work-item type and the patch document, and the body becomes the write-back body; otherwise the body is unchanged |
| `Pipeline.SecondRunFindsMirror` | index.js:30-47 | after a run that created a work item with the check on, the next run finds the marker with the new id and does not create |
| `Pipeline.WrittenBackNeverCreates` | index.js:30-47 | with the check on, a body that went through the write-back never leads to another creation |

## Left out

- Connecting to Azure DevOps (index.js:18-27) and the `createWorkItem` call (index.js:182-210): network calls through a foreign SDK. The id Azure DevOps assigns is a parameter of `Pipeline.Run`.
- Digits.NatToDecimal: an id is an exact natural number written in plain decimal. JavaScript writes numbers from 10^21 up in exponent form (`1e+21`) and loses exactness above 2^53, which would break the round trip between the write-back and `find`; Azure DevOps work-item ids are 32-bit integers, so those forms never arise.
- Pipeline.Run: models only a successful creation. When `createWorkItem` throws or returns null, `create` returns `-1` (index.js:195, 204), and `main` then still writes `AB#undefined` into the body because it does not check for `-1` (index.js:43-47). That path runs around a foreign call and is not modelled. Line 198 also refers to an undefined `wit`.
- The GitHub `issues.update` / `pulls.update` calls (index.js:48-64): network I/O. The model keeps only the in-place change of the body that comes before them.
- `formatDescription` (index.js:84-107): the Markdown is rendered by a GitHub API call, and the HTML banner around it is layout. The description is an opaque parameter; the model only records that the same value goes into both Description and ReproSteps.
- `core.getInput`, `core.setOutput`, `core.setFailed` and console logging: Actions-runtime plumbing. The inputs are the fields of `Pipeline.Config`, and the `id` output is not modelled.
- `ado_project` is read only by the `createWorkItem` call, so it is a field of `Config` that nothing in the model reads.
- The async/await structure: the steps run one after the other and nothing runs concurrently. The race between two concurrent runs on the same item is outside a single-run model.
- The payload is reduced to the record (`payload.issue || payload.pull_request`) and its kind. A payload with neither would make the script throw, and is not modelled.
- No `jwt=` credential stripping is modelled, because `index.js` has no such step before rendering the body.
- The comment at index.js:31-32 says the existence check looks at title and tags. The code only scans the body for the marker, and the model follows the code.
