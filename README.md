# safe-style-jsx, modelled in Dafny

safe-style-jsx rewrites the JSX attributes of `.tsx` files. It has two modes.

**The style DSL** (`runner.ts`). An attribute `ss={SS.flex.p_2.$s.hidden.w(x)}` on an intrinsic element (lower-case tag) is compiled by `SSToTailwind`, in four stages:

1. The nested-parenthesis tokenizer `replaceNestedParentheses` replaces each top-level `(...)` group by `("COUNTi")` and collects the payloads as constant or variable tokens.
2. The `$SS` proxy interprets the property reads and calls of the chain into `(key, condition)` candidates and a style map.
3. `parseOut` resolves each candidate through the `lookups` and `replaceStyles` tables into a class fragment, or into an arbitrary-value style entry.
4. The fragments are assembled into a template literal and a style object text.

The transform callback of `processFile` then replaces the DSL attribute, and any `class`/`style` attribute, by numbered placeholder attributes `style="i"` and `class="j"`. It records the compiled text in the `classNodes` and `styleNodes` lists, wrapping an existing class in `clsx(...)`.

**Marker attributes** (`index.ts`, and its compiled form `index.js`). `$name` / `$name={cond}` attributes become spans of a new `class` template literal, after the existing class. `$$name={value}` attributes become fields of a new `style` object literal, `hyphenate`d, after a spread of the existing style expression. The two files differ on attributes without a plain name, that is spread attributes and names without `escapedText`. The TypeScript's `some(...)` test reads the name unguarded, so it throws when such an attribute comes before every `$` attribute. Its attribute loop then passes spread attributes through and throws on a name without `escapedText`. The JavaScript guards both reads and passes such attributes through. The model has one rewriter with a `Variant` parameter for this.

Modules, one file each:

| module | models |
|---|---|
| `Strings`, `JsText` | the JavaScript string operations used (`startsWith`, `includes`, `replace`, `replaceAll`, `split`, `trim`, `join`, `Number(...)` on strings) |
| `Tokenizer` | `replaceNestedParentheses`: a scan function and a `method` with the loop |
| `Interpreter` | the `$SS` proxy: its `get` and `apply` traps as functions on the proxy state, and a `class ChainProxy` whose methods update the closure variables in place |
| `ChainParser` | reading the skeleton `SS.a.b("COUNT0")...` as the list of property reads and calls that `new Function(...)` would perform |
| `Resolver` | `parseOut`, the assembly, and the `SSToTailwind` method |
| `StyleString` | `styleStringToStyleObject` |
| `CaseNames` | `hyphenate`, `hyphenToCamelCase`, `convertCamalCaseToHyphen` |
| `Jsx` | attributes, initializers and the expressions the transforms build, with their printed text and their run-time string value |
| `MarkerRewriter` | the marker transform of `index.ts` / `index.js` |
| `DslRewriter` | the DSL part of `processFile`: `class Rewriter` holds `classNodes`, `styleNodes`, `classIndex` and `styleIndex` |

JavaScript runtime failures are modelled as errors:
- `TypeError`: reading a field of `undefined`, an out-of-range `params` index, or a factory given `undefined`.
- The thrown `Error`s have their own kinds: `InvalidValue`, `SmallVariable`, `MixedStyle` and `StyleStringAndFields`.

The `lookups` and `replaceStyles` tables are a parameter (`Resolver.Tables`). The traversal of the syntax tree is a parameter too: the sequence of `JsxAttributes` nodes in visiting order, each with its tag. These stand in for the tree library.

Two behaviours are modelled as the code has them, although a reader may expect otherwise:
- **Empty payload.** An empty group `()` is numeric, since `Number('')` is `0`. It therefore yields a constant token and a variable token, not a single variable.
- **Class separator.** With exactly one `$` class, the existing class's span gets a template tail, like the mark's span. The printer ends the template literal at every tail, so `class="a" $b` is printed as `` class={`${"a"}`"b"}`} ``. That is not one template literal, and the attribute has no run-time value. With two marks or more, or with no existing class, the template is well formed. `Jsx.Eval` gives the value only of a well-formed (`Jsx.Closed`) template.

## Model

| member | source | states |
|---|---|---|
| Tokenizer.ClassifyQuoted | runner.ts:839-840 | a single-quoted payload gives one constant token with the quotes stripped |
| Tokenizer.ClassifyNumeric | runner.ts:836-843 | a payload `Number` accepts, the empty one included, gives a constant token and then a variable token with the same text |
| Tokenizer.ClassifyOther | runner.ts:841-843 | any other payload gives one variable token |
| Tokenizer.ReplaceNestedParentheses | runner.ts:818-856 | the character loop computes exactly the skeleton and tokens of the scan specification `Tokenize` |
| Tokenizer.ScanAppend | runner.ts:824-854 | the scan over `a + b` is the scan over `b` resumed after `a` |
| Tokenizer.ScanText | runner.ts:849-850 | at depth 0, characters other than parentheses are appended to the skeleton verbatim and in order, and nothing else changes |
| Tokenizer.ParenFreeUnchanged | runner.ts:818-856 | a string without parentheses comes back unchanged, with no tokens |
| Tokenizer.ScanInside | runner.ts:829-853 | inside a group every character, nested parentheses included, goes to the payload verbatim |
| Tokenizer.ScanGroup | runner.ts:825-848 | a top-level group emits `("COUNTn"`, its closing `)`, the classified payload tokens, increments the counter and empties the payload buffer |
| Tokenizer.ScanPieces | runner.ts:818-856 | on text kept and balanced groups, the skeleton numbers the groups from the current count and the tokens are the classified payloads in order |
| Tokenizer.TokenizePieces | runner.ts:818-856 | the same from the start: group i becomes `("COUNTi")` for i = 0, 1, 2, … |
| Tokenizer.ParenFreeBalanced | runner.ts:829-853 | a payload without parentheses is balanced |
| Tokenizer.NumericPayloadShifts | runner.ts:827-843 | after a numeric payload the group numbers and token indices drift apart: `COUNT1` names the first payload's variable token |
| Interpreter.ChainProxy.constructor | runner.ts:749-754 | a fresh proxy has no candidates, no styles and no flag set |
| Interpreter.ChainProxy.Get | runner.ts:756-780 | the `get` trap updates the proxy's fields as `Accessed` says and returns `{classes, styles}` exactly for `$$$PROCESS` |
| Interpreter.ChainProxy.Apply | runner.ts:781-810 | the `apply` trap fails exactly when `Called` does, and otherwise updates the fields as `Called` says |
| Interpreter.FinalizePrependsFlex | runner.ts:757-759 | `$$$PROCESS` prepends `('flex', true)` and changes nothing else |
| Interpreter.SentinelsOnlySetFlag | runner.ts:761-772 | `$s`, `$style` and `preload` set only their own flag |
| Interpreter.PlainAccessAppends | runner.ts:773-779 | any other name appends one candidate, with `_` replaced by `-` and `sm:` prefixed exactly when `$s` was read earlier |
| Interpreter.StyleCallMerges | runner.ts:782-786 | with `isStyle` set, a call merges its argument into `styles` and clears the flag |
| Interpreter.StyleCallOnString | runner.ts:782-786 | with `isStyle` set, a string argument adds exactly its index names `"0"`..`"n-1"` to the keys of `styles` |
| Interpreter.CharFieldsKeys | runner.ts:783 | the own fields `Object.assign` takes from a string are named exactly by its indices |
| Interpreter.PreloadCallSplices | runner.ts:787-795 | with `isPreload` set, a call clears the flag and appends a truthy argument's classes and styles; a falsy one adds nothing |
| Interpreter.PlainCallSetsLastCondition | runner.ts:796 | otherwise a call overwrites only the last candidate's condition: keys and earlier candidates unchanged |
| Interpreter.CallWithoutCandidateFails | runner.ts:796 | such a call with no candidate yet throws a TypeError |
| Interpreter.SmallIsSticky | runner.ts:752-776 | once `$s` is read, `isSmall` stays set for the rest of the chain |
| Interpreter.KeysFollowAccesses | runner.ts:773-796 | without `preload`, the candidate keys after a chain are the earlier keys followed by the keys of its plain reads, in order |
| Interpreter.EarlierCandidatesStable | runner.ts:777-796 | candidates that existed before a chain, all but the last, are left unchanged by it |
| ChainParser.ParseStepsText | runner.ts:859-862 | every chain of identifier reads and placeholder calls is read back from its skeleton text as itself |
| ChainParser.ParseChainText | runner.ts:859-862 | the same for the whole text `SS...`, which is what `new Function('SS', ...)` evaluates |
| Resolver.ResolveAllStops | runner.ts:899 | `classes.map(parseOut)` fails with the first failing candidate's error |
| Resolver.RunChain | runner.ts:860-862 | driving a fresh `ChainProxy` through the steps and reading `$$$PROCESS` gives the specification `Evaluate` |
| Resolver.ResolveClasses | runner.ts:864-899 | the map over the candidates, accumulating `stylesOutput`, equals `ResolveAll` |
| Resolver.SSToTailwind | runner.ts:702-903 | the method computes `Compile(text)`: icons stripped, tokenized, evaluated, resolved, assembled |
| Resolver.KnownKey | runner.ts:883-896 | a key found in `lookups` resolves to itself when mapped to `''`, else to the mapped name; `true` gives `[sm:]name`, `COUNTi` gives `${(tok?('[sm:]name'):'')}`, anything else `Invalid value` |
| Resolver.UnknownKeyConstant | runner.ts:874-880 | a missing key with a constant token gives `[sm:]prefix-[v]` when `replaceStyles` has it, else `[sm:]key-[v]`, and no style text |
| Resolver.UnknownKeyVariable | runner.ts:869-873 | a missing key with a variable token throws when the key contains `sm`, else appends `'cleanKey':expr,` to the styles |
| Resolver.VariableFallsThrough | runner.ts:869-893 | the variable path does not return: it also yields the fragment `${(expr?('undefined'):'')}` |
| Resolver.StyleIffVariablePath | runner.ts:864-897 | a candidate contributes style text exactly when it takes the variable arbitrary-value path |
| Resolver.ResolveAllInOrder | runner.ts:864-899 | the fragments are the candidates' own fragments in candidate order; the style text is empty exactly when no candidate takes the variable path |
| Resolver.CompileShape | runner.ts:899-903 | the class string is a backtick, the fragments (`flex` first) joined by single spaces, ` ${icon}`, ` ${p.image}` when stripped, and a backtick; styles is `null` exactly when no variable style was emitted |
| Resolver.RunReads | runner.ts:773-779 | plain reads append their names, in order, as unconditional candidates |
| Resolver.PlainCandidate | runner.ts:883-889 | a non-responsive key from `lookups`, read unconditionally, resolves to its class name with no style |
| Resolver.ResolveMarks | runner.ts:899 | a sequence of such reads resolves to their class names, with no style |
| Resolver.ReadsClean | runner.ts:818-856 | the text of plain reads has no icon idiom and no parenthesis, so it reaches the chain parser unchanged |
| Resolver.EvaluateReads | runner.ts:757-779 | plain reads evaluate to `flex` followed by their unconditional candidates, with no styles |
| Resolver.CompileReads | runner.ts:702-903 | `SS.n1...nk` of names in `lookups` compiles to `` `flex c1 ... ck` `` with styles `null` |
| StyleString.StyleStringToStyleObject | runner.ts:603-610 | the loop over the `;`-separated lines computes `StyleObject`, stopping at the first line that throws |
| StyleString.CollectStop | runner.ts:605-608 | once an entry throws, the whole conversion throws with it |
| StyleString.EntryOk | runner.ts:606-607 | a line converts exactly when it holds a `:` (otherwise `value.trim()` throws) |
| StyleString.CollectOk | runner.ts:605-608 | the conversion succeeds exactly when every entry does |
| StyleString.CollectKeys | runner.ts:605-608 | the object's keys are exactly the entries' keys |
| StyleString.CollectLastWins | runner.ts:607 | each key holds the value of the last entry with that key |
| StyleString.StyleObjectOk | runner.ts:603-610 | a style text converts exactly when each of its `;`-separated lines holds a `:` |
| StyleString.TrailingSemicolonFails | runner.ts:605-607 | a quoted style literal ending in `;` throws: its last line is the closing quote |
| StyleString.StyleObjectErrors | runner.ts:603-610 | the only error the conversion raises is a TypeError |
| CaseNames.DashedShape | runner.ts:614-616 | replacing capitals leaves no capital, never shortens, and leaves a capital-free name unchanged |
| CaseNames.HyphenateNoUpper | index.ts:162-167 | `hyphenate` of a name not starting with `--` has no upper-case letter |
| CaseNames.HyphenateIdempotent | index.js:124-130 | `hyphenate` applied twice is `hyphenate` applied once |
| CaseNames.CamelRoundTrip | runner.ts:612-617 | a dash-free camel-case name survives the capital replacement and `hyphenToCamelCase` |
| CaseNames.HyphenateRoundTrip | runner.ts:612-617 | the same round trip through `hyphenate` itself |
| CaseNames.KebabRoundTrip | runner.ts:614-616 | a kebab-case name survives `hyphenToCamelCase` and the capital replacement |
| CaseNames.ConvertAgreesWithDashed | runner.ts:814-816 | `convertCamalCaseToHyphen` agrees with `hyphenate` on names whose every capital follows a lower-case letter |
| MarkerRewriter.Opens | index.ts:28-29 | the gate loop computes `Gate`: whether some name starts with `$`, throwing in the TypeScript on an unnamed attribute met first |
| MarkerRewriter.ScanAttributes | index.ts:36-57 | the classification loop computes `Collect` |
| MarkerRewriter.BuildClass | index.ts:58-115 | building the spans and the `class` attribute computes `ClassAttr` |
| MarkerRewriter.BuildStyle | index.ts:116-153 | building the assignments and the `style` attribute computes `StyleAttr` |
| MarkerRewriter.RewriteAttributes | index.ts:22-157 | the whole callback computes `Rewritten` |
| MarkerRewriter.CollectStop | index.ts:36-57 | once the loop throws, the callback throws with it |
| MarkerRewriter.GateFinds | index.js:18-19 | the gate opens exactly when a name starts with `$`; it throws (TypeScript only, TypeError) exactly when an unnamed attribute comes before every marker |
| MarkerRewriter.CollectFields | index.js:25-55 | the loop throws a TypeError exactly when some attribute is rejected (an unnamed attribute in the TypeScript, or a `$$` mark without initializer), else gives the ordinary attributes in order, the last `class` and `style`, and the `$`/`$$` marks in order with the prefix removed |
| MarkerRewriter.OrdinaryFrom | index.js:26-53 | the kept attributes are ordinary ones taken from the input |
| MarkerRewriter.NoMarkersUnchanged | index.ts:28-29 | without any marker the attributes come back unchanged, unless the TypeScript throws on an unnamed attribute |
| MarkerRewriter.ClassValue | index.ts:58-115 | the new class is one template literal exactly when there are two marks or more, or no existing class; it then evaluates to the existing class's value and a space, then the marks' values joined by single spaces |
| MarkerRewriter.SpansValue | index.js:57-68 | the mark spans evaluate to the marks' values joined by single spaces, with an empty tail last |
| MarkerRewriter.LeadValue | index.ts:78-101 | the existing class's span is followed by a middle part exactly when there are two marks or more; it then evaluates to the class's value and a space |
| MarkerRewriter.OneMarkUnclosed | index.ts:84-96 | with one mark after `class="a"`, both spans get the tail, so the attribute is printed as `` {`${"a"}`"b"}`} `` and is not one template literal |
| Jsx.PrintClosed | index.ts:102-112 | a template with middle parts and a final tail prints as one literal: each expression in `${...}` followed by its text, between two backticks |
| MarkerRewriter.StyleErrors | index.ts:116-139 | the style step fails exactly when there are `$$` marks and one lacks a value, the existing style has no initializer, or it is a string; the last case is the `Cannot transform style string and style fields` error |
| MarkerRewriter.StyleFields | index.js:85-105 | the new style object holds the `$$` marks in order as `hyphenate(name): value`, capital-free except custom properties, after a spread of the existing style expression |
| MarkerRewriter.RewriteShape | index.ts:129-153 | the ordinary attributes are kept in order, followed by `class` exactly when there are `$` marks, then, last, `style` when there are `$$` marks or a style attribute; without `$$` marks that `style` is the input's own attribute, unchanged; no marker is left |
| MarkerRewriter.ClassLostWithoutMarks | index.ts:51-58 | without `$` marks the result holds no `class` attribute, even when the input had one |
| MarkerRewriter.RewriteTwice | index.ts:22-157 | rewriting the result again changes nothing, except that the TypeScript throws on a spread attribute left in it |
| DslRewriter.CollectStop | runner.ts:470-492 | once the attribute loop throws, the callback throws with it |
| DslRewriter.HasTrigger | runner.ts:458-465 | the method is true exactly when some attribute name starts with `use:ss` or `ss` |
| DslRewriter.ReadClassText | runner.ts:493-503 | reading `classText` computes `ClassText` |
| DslRewriter.ReadStyleText | runner.ts:504-514 | reading `styleText`, converting a string literal, computes `StyleText` |
| DslRewriter.Rewriter.constructor | runner.ts:432-435 | both counters start at 0 and both node lists empty |
| DslRewriter.Rewriter.Transform | runner.ts:440-546 | one callback updates the four fields and returns the attributes as `Step` specifies |
| DslRewriter.Rewriter.ReadAttributes | runner.ts:466-492 | the attribute loop computes `Collect`, pushing its class nodes to `classNodes` and touching no other field |
| DslRewriter.Rewriter.Complete | runner.ts:493-546 | the statements after the loop compute `Finish` |
| DslRewriter.RunAllStop | runner.ts:437-549 | the first element that throws decides the outcome of the file |
| DslRewriter.ProcessFile | runner.ts:424-555 | the source replacements, the transform over all elements and the last-index assignments compute `Process` |
| DslRewriter.CollectFits | runner.ts:466-492 | the loop keeps the passed attributes in order, takes the last `class`/`style` initializers, and pushes one class node without index per DSL attribute; with no DSL attribute there is no style object |
| DslRewriter.CollectCompiled | runner.ts:477-482 | every DSL attribute's source text compiles, its class node holds the compiled `classString`, and the style object is the last DSL attribute's compiled `styles` |
| DslRewriter.FinishShape | runner.ts:515-546 | the output is the kept attributes, then `style="styleIndex"` exactly when there is a style object, then `class="classIndex"`; the counters grow by one, the style object goes into a new style node, and only the last class node changes: it gets the class counter and, when there is class text, becomes `clsx(classText,<its text>)` |
| DslRewriter.StepShape | runner.ts:440-546 | a rewritten element: kept attributes in order, the style counter exactly when the last DSL text compiles to styles, then the class counter; the counters grow by one, the new style node holds those compiled styles, and there is one new class node per DSL attribute |
| DslRewriter.StepRecords | runner.ts:477-546 | the new class nodes hold the DSL attributes' compiled class strings in order, earlier elements' nodes untouched; the last one is `clsx(classText,<class string>)` when the element has class text (without a DSL attribute the previous element's last node is wrapped) |
| DslRewriter.StyleAttributeDropped | runner.ts:488-545 | no DSL attribute survives, and the only `style` attribute left is the new counter: an existing style is dropped |
| DslRewriter.StepConsistent | runner.ts:531-545 | each callback keeps the counters and node indices consistent: style node i has index i, class indices increase and the last class node holds `classIndex - 1` |
| DslRewriter.RunAllConsistent | runner.ts:432-549 | the same holds after a whole file |
| DslRewriter.FixUpKeeps | runner.ts:552-555 | the two assignments after the transform change nothing on consistent state |
| DslRewriter.ProcessResult | runner.ts:550-555 | a failing element fails the file; otherwise the source comes back unchanged when no class node was recorded, else the rewritten elements with consistent node lists |
| DslRewriter.IdleFileUnchanged | runner.ts:447-550 | a file whose elements are all upper-case or have no `ss`/`use:ss` attribute comes back as its source after the two replacements |
| DslRewriter.RewriteTwice | runner.ts:458-492 | rewriting a rewritten element again changes nothing, when its only trigger names were exactly `ss` and `use:ss` |
| DslRewriter.SecondDslOrphansFirst | runner.ts:477-544 | with two DSL attributes on one element, the first one's class node never gets a counter |
| DslRewriter.TriggerWithoutDsl | runner.ts:458-544 | an element triggered by another `ss...` name takes over the previous element's class node (giving it the new counter), and throws if there is none |
| DslRewriter.CollectIdle | runner.ts:470-492 | without a DSL attribute the loop cannot throw |
| DslRewriter.StyleTextErrors | runner.ts:504-514 | reading `styleText` throws only a TypeError |
| DslRewriter.MixedStyleRejected | runner.ts:504-521 | when the DSL yields styles: a string-literal `style` is rejected if it converts and gives a TypeError if not; a `style={...}` expression is rejected exactly when it is non-empty; with no `style` there is no rejection |

## Left out

- The syntax-tree library is left out: parsing, `getText`, the node factory and the printer. Attributes and expressions are datatypes, and printed text (`Jsx.Print`) does not model escaping or the printer's formatting.
- The traversal order of `sourceFile.transform` is not modelled. It is the `elements` parameter of `DslRewriter.ProcessFile`, and a tag that is not an identifier, or a node without a parent, is given as no tag.
- The second pass of `processFile` (runner.ts:557-583) is left out. It replaces placeholder attributes through the tree API.
- Prettier, `glob`, the file system, `console.log`, `debugger` and `sourceFile.delete()` are left out. They are I/O or foreign libraries.
- The contents of `lookups` and `replaceStyles` is a parameter, not the literal tables.
- `new Function` evaluation is replaced by `ChainParser`. It reads only skeletons of the form `SS` followed by `.identifier` and `("COUNTn")` steps. Any other skeleton text gives `NotModelled`, for instance an index access `SS[...]`, a chain that does not start with `SS`, or code after the chain. Arguments never reach it: the tokenizer has already replaced every top-level group, object literals included, by `("COUNTn")`, so every call receives that string. `$style("COUNTn")` then copies the string's characters into the proxy's styles (`Interpreter.Assign`), and `preload("COUNTn")` throws a TypeError, as in JavaScript.
- Resolver.Param: the index `Number(value.replace('COUNT', ''))` is read only for decimal digit strings. Other numeric spellings (`' 1'`, `'1e0'`) give a TypeError instead of a valid index.
- CaseNames: `toLowerCase`/`toUpperCase` and the regular expressions are modelled on ASCII letters only. The tag test `tagName[0] === tagName[0].toUpperCase()` is modelled as "starts with an ASCII lower-case letter".
- JavaScript prototype keys, such as `lookups['constructor']`, are not modelled: the tables are plain maps.
- The unused `CSSPropsThatTakePX` list and the commented-out branches are dead code and not modelled.
- The demo source at the top of index.ts is not modelled.
