# Barrel-file generator: a Dafny model

The build script of this Vue component library scans `src/components` and
`src/composables` and writes two barrel files. The component index imports
every component's `index.vue` under the identifier `Vs` + the capitalized
directory name, then re-exports all of them in one `export { ... }` block. The
composable index holds one `export * from "./x"` line per composable. Both
files start with a blank line and a comment saying the file is generated.

This project models the part of that script with logic in it:

- `Utils.Capitalize` is `capitalize` from `scripts/utils.ts`. It upper-cases
  the first character and keeps the rest, built from models of `charAt`,
  `toUpperCase` and `slice`.
- `Build.Render` is the rendering part of `run()` in `scripts/build.ts`. It is
  a method whose two loops push onto `imports`, `exports` and
  `composableImports`, as the source's `for ... of` loops do. Then it fills
  the two template literals. It is proved equal to the pure specification
  functions `Build.RenderComponentIndex` and `Build.RenderComposableIndex`.
- `Strings.Join` is `Array.prototype.join`. `Strings.Split` (and
  `Strings.Lines`, which splits at newlines) undoes it: joining the pieces of
  a split always restores the text, and splitting a join at a one-character
  separator restores the items of any non-empty list whose items hold no
  separator. The lemmas use this to
  read a rendered file back line by line: one import line per component, one export entry per
  component, one re-export line per composable, in listing order.

The directory listings are plain `seq<string>` parameters, taken in the order
the scan returns them. The code neither sorts nor removes duplicates, and
neither does the model. It also does not sanitise names, so every string is
accepted.

Modules: `Strings` (`strings.dfy`) holds the JavaScript built-ins and their
inverse, `Utils` (`utils.dfy`) models `scripts/utils.ts`, and `Build`
(`build.dfy`) models `scripts/build.ts`.

## Model

| member | source | states |
|---|---|---|
| `Utils.Capitalize` | scripts/utils.ts:38-40 | The result has the argument's length, its first character is the ASCII upper case of the argument's first, and every later character is unchanged |
| `Utils.CapitalizeEmpty` | scripts/utils.ts:39 | `capitalize("")` is `""` (`charAt(0)` and `slice(1)` of `""` are both empty) |
| `Utils.CapitalizeKeepsTail` | scripts/utils.ts:39 | For a non-empty string, the result is the upper-cased first character followed by `s[1..]` exactly |
| `Utils.CapitalizeFirstLetter` | scripts/utils.ts:39 | A lower-case first letter `a`-`z` becomes the upper-case letter 32 code points below it |
| `Utils.CapitalizeIdempotent` | scripts/utils.ts:39 | Capitalizing twice equals capitalizing once |
| `Utils.CapitalizeUnchangedIff` | scripts/utils.ts:39 | The string comes back unchanged if and only if it is empty or does not start with `a`-`z` |
| `Utils.CapitalizeKeepsNonLetters` | scripts/utils.ts:39 | A character that is not an ASCII letter (such as a newline) occurs in the result if and only if it occurs in the argument |
| `Utils.CapitalizeExamples` | scripts/utils.ts:39 | `button` capitalizes to `Button` and `alert` to `Alert` |
| `Strings.Join` | scripts/build.ts:27 | `join` of no items is `""`, and the joined text starts with the first item |
| `Strings.SplitJoin` | scripts/build.ts:27 | Splitting `xs.join(sep)` at a one-character separator found in no item gives back exactly the items, in order, for any non-empty list (`[]` and `[""]` both join to `""`, and an item holding the separator would be cut in two) |
| `Strings.JoinSplit` | scripts/build.ts:27 | Joining the pieces of a split with the separator restores the text, for every text: `Split` is a right inverse of `Join` everywhere, and a left inverse only on non-empty lists of separator-free items (`Strings.SplitJoin`) |
| `Build.ExportName` | scripts/build.ts:16 | An identifier is 2 characters longer than its directory name, starts with `Vs`, then has the upper-cased first character, then the rest of the name verbatim |
| `Build.ImportLine` | scripts/build.ts:17 | An import line is twice the directory name's length plus 29 characters long, starts with `import Vs` and ends with `/index.vue"` |
| `Build.ReexportLine` | scripts/build.ts:22 | A re-export line is `export * from "./`, the directory name verbatim, and a closing quote |
| `Build.RenderComponentIndex` | scripts/build.ts:25-32 | The component index starts with a blank line and the header line and ends with the closing `}` line; its full line structure is `Build.ComponentIndexLines` |
| `Build.RenderComposableIndex` | scripts/build.ts:34-37 | The composable index starts with a blank line and the header line and ends with a newline; its full line structure is `Build.ComposableIndexLines` |
| `Build.ExportNames` | scripts/build.ts:15-18 | One identifier per component, in listing order, and the identifier at position i is `Vs` + capitalize(components[i]) |
| `Build.ImportLines` | scripts/build.ts:15-17 | One import line per component, in listing order, with no sorting or deduplication |
| `Build.ReexportLines` | scripts/build.ts:21-23 | One `export * from "./x"` line per composable, in listing order |
| `Build.Render` | scripts/build.ts:9-37 | The two pushing loops and the templates produce exactly the component index and the composable index. The first depends only on the component listing and the second only on the composable listing, so equal listings give identical text |
| `Build.ImportBindsExportedName` | scripts/build.ts:16-18 | The import line at position i binds the same identifier that the export list holds at position i, from `./<component>/index.vue` |
| `Build.ExampleImportLine` | scripts/build.ts:17 | The import line for `button` is `import VsButton from "./button/index.vue"` |
| `Build.ExampleExportNames` | scripts/build.ts:15-19 | Listing `button` then `alert` exports `VsButton` then `VsAlert`, in that order, joined as `VsButton,\n  VsAlert` |
| `Build.ExampleButtonAlert` | scripts/build.ts:25-32 | The whole component index for `button`, `alert`: header, both import lines joined by a newline, and the export block listing both identifiers |
| `Build.EmptyListings` | scripts/build.ts:25-37 | With no components the file is the header, an empty import section and `export {\n  \n}`; with no composables the file is the header and a trailing newline |
| `Build.ExportBlockLines` | scripts/build.ts:29-31 | For one or more identifiers, none holding a newline, the export block reads back as one line per identifier, indented two spaces, with a comma after all but the last (with no identifiers it is the single line `"  "`, see `Build.ExportSectionLines`) |
| `Build.ImportSectionLines` | scripts/build.ts:27 | For component names without newlines, the import section reads back as exactly the import lines, or as one empty line when there are no components |
| `Build.ExportSectionLines` | scripts/build.ts:30 | For component names without newlines, the export block reads back as one entry per component, or as a line holding only the indentation when there are none |
| `Build.ReexportSectionLines` | scripts/build.ts:36 | For a non-empty listing of composable names without newlines, the re-export section reads back as exactly the re-export lines (an empty listing gives one empty line, see `Build.ComposableIndexLines`) |
| `Build.ComponentFrameLines` | scripts/build.ts:25-32 | The component template, read line by line: blank line, header, the import section's lines, blank line, `export {`, the block's lines, `}`, and a final empty line |
| `Build.ComposableFrameLines` | scripts/build.ts:34-37 | The composable template, read line by line: blank line, header, the section's lines, and a final empty line |
| `Build.ComponentIndexLines` | scripts/build.ts:25-32 | For names without newlines, the component index has exactly one import line per component and one export entry per component, in listing order, between the fixed frame lines, with no separator before the first or after the last item |
| `Build.ComposableIndexLines` | scripts/build.ts:34-37 | For names without newlines, the composable index has exactly one re-export line per composable, in listing order, after the header |

## Left out

- Directory enumeration with fast-glob (`get_components`, `get_composables`, scripts/utils.ts:20-33) is filesystem I/O. The listings are parameters, in whatever order the scan yields. What happens when a root directory is missing is not modelled.
- The path constants built from `import.meta.url` (scripts/utils.ts:7-15) are platform path plumbing.
- The `fs.writeFile` calls and the async structure of `run()` (scripts/build.ts:4-7, 39-45) are I/O. Whether one file is written and not the other is not modelled.
- `vite.config.ts` is declarative bundler configuration, and `src/composables/useAlert/index.ts` wraps the browser `alert`. Neither holds logic to model.
- Utils.Capitalize: upper-casing follows ASCII only (`a`-`z` to `A`-`Z`, every other character unchanged). Full Unicode `toUpperCase` can change length (`ß` becomes `SS`). JavaScript strings are UTF-16, so `charAt(0)` may return half of a surrogate pair. Neither is modelled.
- Build.ComponentIndexLines, Build.ComposableIndexLines: the line-by-line reading assumes no directory name contains a newline. Such a name would split its own line in two. The text itself (`Build.Render`) is modelled for every string.
- The source does not sort the listings, and the model keeps that order. Sorting them for reproducible output is a possible design choice, not something the code does.
