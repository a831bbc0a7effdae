# Auto-import loader for Vue single-file components: a Dafny model

This project models the webpack loader in `loaders/autoimport.js`. The loader
receives the text of a Vue single-file component and the path of the file
being built. When a configured component name followed by `.vue` occurs in
that path, the loader does the following:

- it looks for a top-level import whose source has `/hooks/header` first at
  a positive index;
- when there is none, it puts an import of `useHeader` from `@/hooks/header`
  in front of the `<script>` program and splices a `useHeader()` call into
  every `setup` method of the default-exported object;
- it rebuilds the component text from the parsed blocks.

Only the script's content differs from the parsed descriptor. The rebuilt
text is not the input with the script replaced, though: it is written out from
the descriptor (see the list of behaviours below).

Modules:

- `Wrappers` holds `Option`.
- `Text` models the JavaScript string operations the loader uses: `indexOf`,
  `split` on one character and `join`.
- `Sfc` models the component descriptor (template, script, scriptSetup, styles
  and custom blocks, each with a type, ordered attributes whose values are
  `true` or a string, and content). It also has `generateSfc`, as the methods
  `AttrCode` and `GenerateSfc`. `AttrCode` is proved against the
  specification function `AttrText`, and `GenerateSfc` against `SfcText`.
- `Script` models the script as top-level statements: imports, default
  exports, returns, calls and everything else. It covers the detection loop,
  the `findIndex`/`splice` placement of the call, and a `Program` class. That
  class's methods change the program body in place, like `insertBefore` and the
  nested property loops. `TransformProgram` is the whole `Program` visitor as a
  function.
- `AutoImport` models `transWin`, the allow-list test, and the loader itself.
  The loader is both a method (`Loader`) and its specification
  (`LoaderResult`), with lemmas for the properties the loader keeps.

Behaviours of the code that are easy to misread:

- Eligibility is *containment* of `name + ".vue"` in the normalised path, not
  an exact match of the base name.
- The header import is detected when
  `source.indexOf("/hooks/header") > 0`. So an import whose source *starts*
  with `/hooks/header` is not detected, and a second header import is then
  added.
- When a `setup` body has no `return`, `findIndex` yields -1 and
  `splice(-1, 0, …)` puts the call before the *last* statement. This
  contradicts the comment at loaders/autoimport.js:58, which says "at the
  front". The call lands first only in an empty or one-statement body.
- When the import is already present, no call is added either. Any import
  counts as present when its source has `/hooks/header` first at a positive
  index, even `import other from "./hooks/headerbar"`.
- A syntax error in the script is not caught: the loader throws
  (`Threw(ScriptSyntaxError)`). It does not return its input unchanged.
- When the import is already present, the text is still regenerated from the
  descriptor and the generated code. It is not the input text.
- `bodyPath[0].insertBefore` on an empty program throws
  (`Threw(EmptyProgram)`).
- The rebuilt text is not the input with the script replaced. Each opening
  tag gets a space after its type, because the attribute `reduce` starts from
  `" "` (`<template >`, `<style  scoped>`). The blocks are written in a fixed
  order (template, script, scriptSetup, styles, custom blocks), and nothing
  that lay between or around the blocks is kept.

## Model

| member | source | states |
|---|---|---|
| `AutoImport.TransWin` | loaders/autoimport.js:100-103 | An empty path comes back as it is. Otherwise the result has the same length, `/` wherever the input has `\`, and every other character kept in its place. |
| `AutoImport.TransWinNoBackslash` | loaders/autoimport.js:100-103 | No backslash is left in the normalised path. |
| `AutoImport.TransWinIdempotent` | loaders/autoimport.js:100-103 | Normalising twice equals normalising once. |
| `Text.Split` | loaders/autoimport.js:102 | `split` on one character yields at least one part, and no part contains the separator. |
| `Text.Join` | loaders/autoimport.js:102 | `join` of no parts is empty. Otherwise the first part leads the result, and the result is as long as all parts plus one separator between each two. |
| `Text.SplitJoinRoundTrip` | loaders/autoimport.js:102 | Joining the parts of a split with the same separator gives back the text. |
| `Text.SplitJoinReplaces` | loaders/autoimport.js:102 | `split(c).join(d)` replaces every `c` by `d`, character by character. |
| `Text.IndexOf` | loaders/autoimport.js:17 | `indexOf` is -1 exactly when the needle does not occur. Otherwise the needle occurs there and at no earlier index. |
| `Text.IndexOfPositive` | loaders/autoimport.js:42 | `indexOf(...) > 0` holds exactly when the needle occurs and does not occur at index 0. |
| `AutoImport.NeedAddFlag` | loaders/autoimport.js:16-18 | True exactly when some configured name followed by `.vue` is a substring of the path. |
| `AutoImport.EligibilityIsContainment` | loaders/autoimport.js:16-20 | `Home` admits `src/views/MyHome.vue` and `src/Home.vue.bak`, so the test is containment and not a base-name match. |
| `AutoImport.IneligibleUnchanged` | loaders/autoimport.js:14-20 | When no configured name plus `.vue` occurs in the normalised path, the loader returns its input text. |
| `AutoImport.MissingScriptUnchanged` | loaders/autoimport.js:22-30 | When the component has no plain script block, the loader returns its input text. |
| `Script.DetectHeaderImport` | loaders/autoimport.js:38-48 | The loop with `break` reports true exactly when some top-level import's source has `/hooks/header` first at a positive index. |
| `Script.DetectionMeaning` | loaders/autoimport.js:39-46 | Detection holds exactly when some import's source contains `/hooks/header` and does not start with it. |
| `Script.HeaderImportDetected` | loaders/autoimport.js:52-55 | The inserted source `@/hooks/header` has `/hooks/header` at index 1, so the inserted import is itself detected. |
| `Script.LeadingSlashSourceNotDetected` | loaders/autoimport.js:42 | An import from `/hooks/header` itself is not detected. |
| `Script.LeadingSlashImportDuplicated` | loaders/autoimport.js:38-56 | A program importing from `/hooks/header` gets a second header import in front. |
| `Script.FindReturn` | loaders/autoimport.js:67-69 | The result is the index of the first return statement, or -1 exactly when there is none. |
| `Script.SpliceMinusOne` | loaders/autoimport.js:67-78 | `splice(-1, 0, x)`, what a `setup` body without a return gets, puts `x` before the last element, not at the end. In an empty array `x` is the only element. |
| `Script.SpliceInsert` | loaders/autoimport.js:74-78 | `splice(start, 0, x)` makes the array one longer, with `x` at the insertion point. The elements before it stay in place, and those from it on move one place later. |
| `Script.WithSetupCall` | loaders/autoimport.js:65-78 | The body has exactly one `useHeader()` more. It goes before the first return when there is one. With no return it goes before the last statement, and in an empty body it is the only statement. The other statements keep their order. |
| `Script.SetupCallInsertedOnce` | loaders/autoimport.js:74-78 | Every setup body is the original with one call inserted at some position and nothing else changed. |
| `Script.PlacementBeforeReturn` | loaders/autoimport.js:67-78 | `setup() { return {} }` gets the call right before its return, also when statements precede and follow the return. |
| `Script.PlacementWithoutReturn` | loaders/autoimport.js:58-78 | A two-statement body without a return gets the call between its two statements, not first. A one-statement body gets it first. |
| `Script.InjectPropertyKeeps` | loaders/autoimport.js:63-84 | A property keeps its key. Anything other than a `setup` property with a body is unchanged. A body stays present or absent, and a `setup` body gets exactly one statement more. |
| `Script.InjectProperties` | loaders/autoimport.js:63-85 | Every `setup` property with a body gets the spliced body. Every other property, and a `setup` property without a body, is left as it was. The failure count is the number of `setup` properties without a body, which the source logs and skips. |
| `Script.Program.InsertImportBefore` | loaders/autoimport.js:52-56 | The program body becomes the header import followed by the old body. |
| `Script.Program.InjectSetupCalls` | loaders/autoimport.js:59-88 | The new body is the old one with every default-exported object's properties injected. Any other statement is unchanged. The failures are counted over all exports. |
| `Script.TransformProgram` | loaders/autoimport.js:32-89 | If the header import is detected, the body is unchanged. Otherwise the result is one statement longer, starts with the header import, and holds every original statement, in order, transformed statement by statement. |
| `Script.OtherStatementsKept` | loaders/autoimport.js:59-62 | Statements other than object default exports with properties are carried over unchanged, one place later. Non-object default exports count among them. |
| `Script.EverySetupInjected` | loaders/autoimport.js:59-78 | Every `setup` property with a body gets its call, not just the first one. The number of properties and their keys stay the same, and every other property is unchanged. |
| `Script.UnrelatedImportBlocksInjection` | loaders/autoimport.js:38-56 | A program whose only import is `other` from `./hooks/headerbar` gets neither the header import nor the call in its `setup`. |
| `Script.TransformIdempotent` | loaders/autoimport.js:37-56 | Running the visitor on its own output changes nothing. |
| `Sfc.BareAndQuotedFragmentsDiffer` | loaders/autoimport.js:114-118 | A string-valued attribute is written as the bare attribute of the same name followed by `="value"`. So the two never give the same text, even when the value is empty. |
| `Sfc.AttrCode` | loaders/autoimport.js:112-122 | The `reduce` yields a single space followed by the fragments of all attributes in order. |
| `Sfc.GenerateSfc` | loaders/autoimport.js:105-129 | The `forEach` accumulation equals `SfcText`. |
| `Sfc.SfcTextOrder` | loaders/autoimport.js:108-111 | The output is, in order: the template's text, the script's, the scriptSetup's, every style's, then every custom block's. An absent block or one with an empty type contributes nothing. |
| `Sfc.ScriptContentReplaced` | loaders/autoimport.js:93-95 | Replacing the script content changes only the text between the script's tags. The new content appears verbatim there. |
| `Sfc.OpenTagShape` | loaders/autoimport.js:112-123 | Each attribute's fragment sits between those of the attributes before and after it. |
| `AutoImport.LoaderResult` | loaders/autoimport.js:12-98 | The loader changes its input or throws only for an eligible path and a component with a plain script block. It throws a syntax error exactly when such a script does not parse, and fails on an empty program exactly when it parses to no statements. |
| `AutoImport.Loader` | loaders/autoimport.js:12-98 | The loader's steps, run on a mutable program object, produce exactly `LoaderResult`. |
| `AutoImport.OnlyScriptContentReplaced` | loaders/autoimport.js:93-97 | On success the output is the template's text, then the script's own tags around the generated code of the transformed program, then every later block, all as parsed. |
| `AutoImport.LoaderIdempotent` | loaders/autoimport.js:32-56 | Suppose both parsers read back what the loader wrote. Then running the loader on its own output returns that output again. |

## Left out

- `vue.config.js` only registers the loader in the build. It is not part of this model.
- `@vue/compiler-sfc`'s `parse`, `@babel/parser`'s `parse` and `@babel/generator` are foreign libraries. They are the uninterpreted function fields of `Foreign`. A babel syntax error is the parser's `None`.
- The babel AST is reduced to the five statement kinds the loader looks at. Nested statements, such as a `return` inside an `if`, are `Other`, because `findIndex` only looks at the top-level statements of the setup body.
- The `@babel/traverse` visitor mechanics are not modelled. The `Program` visitor runs exactly once, and nodes inserted during the traversal are not traversed again.
- `require("../autoimport.config")` is file I/O. The allow-list is the `names` parameter.
- `this.resource` is a property of the webpack loader context: the resource path together with its query. It is the `resource` parameter. When the allow-list is non-empty, an undefined resource would make `resource.indexOf` throw, and that case is not modelled.
- `console.log` only writes diagnostics. The model counts the skipped `setup` properties (`failures`), and `Loader` discards that count.
- `path.get("source").isStringLiteral()` is always true for an import declaration, so an import's source is a plain string.
- The guard `if (!bodyPath) return;` never fires, because `get("body")` always returns an array. It is not a branch in the model.
- The guard `idx !== undefined` is always true, since `findIndex` returns a number. It is not a branch in the model.
- `Object.entries` lists integer-like attribute names first. The model takes the attribute list in enumeration order as given.
- JavaScript strings are UTF-16 code units. Here they are `seq<char>`.
- `Foreign.generate` is applied to the reduced program. `Other` and `Return` statements and non-`setup` properties carry no payload, so the generated code depends only on the shape of the program, unlike babel's generator. As a result, `LoaderIdempotent`'s premise `parseScript(code) == Some(program)` amounts to assuming that babel reprints its own reparsed output unchanged.
- `AutoImport.LoaderIdempotent` assumes, as preconditions, that the component parser and the script parser invert what the generators wrote. The source makes no such promise itself.
