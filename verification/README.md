# Theoistic.PDF core, modelled in Dafny

Theoistic.PDF turns HTML into PDF through the native wkhtmltopdf library. This
project models the three parts of it that carry logic of their own.

- **The conversion sequence of `ThreadSafeHTMLToPDFConverter`.**
  - A document without objects is refused before any native call.
  - Otherwise the native library is loaded and the global settings are created.
  - The document's settings are marshaled into flat setter calls. Booleans
    become `"true"`/`"false"`, and a string dictionary follows wkhtmltopdf's
    `name.append` / `name[i]` list convention. Nested settings objects are
    walked in place.
  - The converter is created, and each non-null object is added with its own
    object settings.
  - The callbacks are registered and the conversion runs. The result is
    fetched only when the conversion succeeds, and the converter is destroyed.
  - The native library is a recorder of abstract calls (`Backend.PdfTools`),
    so every statement about order is a statement about that trace.
  - The event handlers build argument records that carry the document being
    processed.
- **`MustacheRenderer`.** It works in two passes:
  - a section pass, which repeatedly replaces the leftmost
    `{{#name}}…{{/name}}` or `{{^name}}…{{/name}}` with its rendering;
  - a variable pass, which replaces every `{{…}}` tag with the text of the
    value its trimmed content names.

  Values are looked up along dotted paths, one member at a time. Names match
  ignoring case, and a property wins over a field. The two regular expressions
  are matched by hand scanners (`MustacheScan`). Rendering a section's body
  runs the whole renderer again, and that need not terminate. The
  specification functions therefore carry fuel, and a result, once obtained,
  does not change with more fuel. As the code is written, an inverted section
  always renders to the empty string (`InvertedSectionIsEmpty`).
- **The two fluent `PDFBuilder` classes** (core and Razor).
  - Global settings are created lazily as Color/Portrait/A4, and object
    settings as UTF-8, then reused.
  - `Settings` replaces the global settings with a fresh object.
  - `InjectCSS` fails on a missing file. Otherwise it keeps a `<link>` tag
    whose `file:///` URL has `\` turned into `/` and spaces into `%20` (core
    builder), or keeps the file's text (Razor builder).
  - The page gets the stylesheet spliced in front of every `</head>`, and
    nothing else changes.
  - The document holds the global settings and exactly one object, whose
    content is that page.

The modules are:

| module | file |
|---|---|
| `Wrappers` | `wrappers.dfy` |
| `Marshal` | `marshal.dfy` |
| `Backend` | `backend.dfy` |
| `Converter` | `converter.dfy` |
| `MustacheModel` | `mustache_model.dfy` |
| `MustacheScan` | `mustache_scan.dfy` |
| `MustacheRender` | `mustache_render.dfy` |
| `TextReplace` | `replace.dfy` |
| `HeadInjection` | `head_injection.dfy` |
| `PdfSettings` | `pdf_settings.dfy` |
| `TheoisticBuilder` | `theoistic_builder.dfy` |
| `RazorBuilder` | `razor_builder.dfy` |

## Model

| member | source | states |
|---|---|---|
| Marshal.NatToString | Theoistic.PDF/ThreadSafeHTMLToPDFConverter.cs:220 | the index written into `name[i]` is a non-empty string of decimal digits |
| Marshal.ParseNatToString | Theoistic.PDF/ThreadSafeHTMLToPDFConverter.cs:220 | reading the written index back as a decimal number gives the index |
| Marshal.NatToStringInjective | Theoistic.PDF/ThreadSafeHTMLToPDFConverter.cs:220 | two different indices are written as two different strings |
| Marshal.IndexedNamesDistinct | Theoistic.PDF/ThreadSafeHTMLToPDFConverter.cs:209-222 | two entries of one dictionary are never set under the same `name[i]` key |
| Marshal.MapSettingsShape | Theoistic.PDF/ThreadSafeHTMLToPDFConverter.cs:206-224 | a dictionary emits exactly two settings per entry that has both a key and a value; the k-th such entry gives `name.append` with null, then `name[k]` with key + "\n" + value; the indices are exactly 0..k-1 |
| Marshal.MapSettingsSnoc | Theoistic.PDF/ThreadSafeHTMLToPDFConverter.cs:211-223 | one more entry adds its two settings, numbered by the complete entries before it, when it has a key and a value; otherwise it adds nothing and does not advance the index |
| Marshal.EmitShape | Theoistic.PDF/ThreadSafeHTMLToPDFConverter.cs:198-228 | a bool, a double or another value is one setting under the key itself (a bool as exactly "true" or "false", a double as its formatted text, any other value or keyed settings object as exactly its ToString text); a dictionary is two settings per complete entry; every emitted name starts with the key |
| Marshal.MapNamesExtendKey | Theoistic.PDF/ThreadSafeHTMLToPDFConverter.cs:219-220 | every name a dictionary emits extends the property's key |
| Marshal.FlattenConcat | Theoistic.PDF/ThreadSafeHTMLToPDFConverter.cs:161-181 | the walk visits properties in order: walking two lists of properties one after the other emits the first list's settings, then the second's |
| Marshal.SilentFieldVanishes | Theoistic.PDF/ThreadSafeHTMLToPDFConverter.cs:166-180 | a property whose value is null, or an unkeyed property that is not a settings object, emits nothing wherever it stands |
| Marshal.NestedFieldInlined | Theoistic.PDF/ThreadSafeHTMLToPDFConverter.cs:176-179 | an unkeyed nested settings object is walked in place, on the same handle and with the same setter |
| Marshal.KeyedFieldApplied | Theoistic.PDF/ThreadSafeHTMLToPDFConverter.cs:170-175 | a keyed non-null property emits exactly what `Apply` emits for its value under its key, at its place in the walk |
| Backend.SetterCallsTarget | Theoistic.PDF/ThreadSafeHTMLToPDFConverter.cs:188-196 | every setting becomes one call on the given handle, to the global setter when `isGlobal` holds and to the object setter otherwise, with name and value unchanged |
| Backend.SetterCallsConcat | Theoistic.PDF/ThreadSafeHTMLToPDFConverter.cs:188-196 | setting two lists of settings one after the other makes the first list's calls, then the second's |
| Backend.PdfTools.constructor | Theoistic.PDF/ThreadSafeHTMLToPDFConverter.cs:22-25 | a fresh binding has made no call and fixes whether conversion succeeds and what it produces |
| Backend.PdfTools.Load | Theoistic.PDF/ThreadSafeHTMLToPDFConverter.cs:42 | records the load and nothing else |
| Backend.PdfTools.CreateGlobalSettings | Theoistic.PDF/ThreadSafeHTMLToPDFConverter.cs:128 | returns a handle not handed out before and records its creation |
| Backend.PdfTools.CreateObjectSettings | Theoistic.PDF/ThreadSafeHTMLToPDFConverter.cs:139 | returns a handle not handed out before and records its creation |
| Backend.PdfTools.SetGlobalSetting | Theoistic.PDF/ThreadSafeHTMLToPDFConverter.cs:191 | records one global setting on the handle |
| Backend.PdfTools.SetObjectSetting | Theoistic.PDF/ThreadSafeHTMLToPDFConverter.cs:195 | records one object setting on the handle |
| Backend.PdfTools.CreateConverter | Theoistic.PDF/ThreadSafeHTMLToPDFConverter.cs:132 | returns a new converter handle, recorded against the global settings it was created from |
| Backend.PdfTools.AddObject | Theoistic.PDF/ThreadSafeHTMLToPDFConverter.cs:143 | records the object added to the converter with its settings handle and its content |
| Backend.PdfTools.SetPhaseChangedCallback | Theoistic.PDF/ThreadSafeHTMLToPDFConverter.cs:47 | records the registration on the converter |
| Backend.PdfTools.SetProgressChangedCallback | Theoistic.PDF/ThreadSafeHTMLToPDFConverter.cs:48 | records the registration on the converter |
| Backend.PdfTools.SetFinishedCallback | Theoistic.PDF/ThreadSafeHTMLToPDFConverter.cs:49 | records the registration on the converter |
| Backend.PdfTools.SetWarningCallback | Theoistic.PDF/ThreadSafeHTMLToPDFConverter.cs:50 | records the registration on the converter |
| Backend.PdfTools.SetErrorCallback | Theoistic.PDF/ThreadSafeHTMLToPDFConverter.cs:51 | records the registration on the converter |
| Backend.PdfTools.DoConversion | Theoistic.PDF/ThreadSafeHTMLToPDFConverter.cs:53 | records the conversion and reports the library's success |
| Backend.PdfTools.GetConversionResult | Theoistic.PDF/ThreadSafeHTMLToPDFConverter.cs:57 | records the fetch and returns the library's output |
| Backend.PdfTools.DestroyConverter | Theoistic.PDF/ThreadSafeHTMLToPDFConverter.cs:60 | records the destruction of the converter |
| Converter.ConfigCallsFlatten | Theoistic.PDF/ThreadSafeHTMLToPDFConverter.cs:150-182 | walking a settings object issues its flattened settings, in order, each as one setter call on the same handle with the same setter |
| Converter.PropertyCallsFlatten | Theoistic.PDF/ThreadSafeHTMLToPDFConverter.cs:163-180 | one property issues exactly its own flattened settings as setter calls |
| Converter.SlotAdds | Theoistic.PDF/ThreadSafeHTMLToPDFConverter.cs:137-144 | a null object adds nothing; a non-null one adds exactly its own content, once |
| Converter.ObjectCallsAddInOrder | Theoistic.PDF/ThreadSafeHTMLToPDFConverter.cs:135-145 | the object loop adds the contents of the non-null objects, in document order |
| Converter.NullObjectsAddNothing | Theoistic.PDF/ThreadSafeHTMLToPDFConverter.cs:135-145 | a document whose objects are all null makes no object call at all |
| Converter.ObjectCallsKinds | Theoistic.PDF/ThreadSafeHTMLToPDFConverter.cs:135-145 | the object loop only creates object settings, sets object settings and adds objects |
| Converter.GlobalCallsShape | Theoistic.PDF/ThreadSafeHTMLToPDFConverter.cs:127-133 | the global settings handle is created first, then receives only global setter calls, one per flattened setting, and only then is the converter created from it; none of these adds an object or fetches a result |
| Converter.ConversionTraceOrder | Theoistic.PDF/ThreadSafeHTMLToPDFConverter.cs:32-63 | an accepted conversion loads first, sets up the global settings before creating the converter, destroys the converter last, and fetches the result exactly when the conversion succeeds |
| Converter.ConversionAddsObjectsInOrder | Theoistic.PDF/ThreadSafeHTMLToPDFConverter.cs:32-63 | the objects a whole conversion adds are the non-null objects of the document, in order, and nothing else |
| Converter.ThreadSafeConverter.constructor | Theoistic.PDF/ThreadSafeHTMLToPDFConverter.cs:22-25 | a new converter has its binding and no document in progress |
| Converter.ThreadSafeConverter.ApplySetting | Theoistic.PDF/ThreadSafeHTMLToPDFConverter.cs:188-196 | one setting goes to the global setter when `isGlobal` holds and to the object setter otherwise |
| Converter.ThreadSafeConverter.Apply | Theoistic.PDF/ThreadSafeHTMLToPDFConverter.cs:184-229 | the calls made are the setter calls of what `Emit` specifies for the value (see `EmitShape`), and no handle is taken |
| Converter.ThreadSafeConverter.ApplyMap | Theoistic.PDF/ThreadSafeHTMLToPDFConverter.cs:206-224 | the dictionary loop with its running index makes exactly the calls `MapSettings` specifies (see `MapSettingsShape`) |
| Converter.ThreadSafeConverter.ApplyEntry | Theoistic.PDF/ThreadSafeHTMLToPDFConverter.cs:219-222 | a complete entry makes the append directive, then the numbered entry |
| Converter.ThreadSafeConverter.ApplyConfig | Theoistic.PDF/ThreadSafeHTMLToPDFConverter.cs:150-182 | a null settings object makes no call; otherwise the property loop makes exactly the walk's setter calls (see `ConfigCallsFlatten`), and no handle is taken |
| Converter.ThreadSafeConverter.ApplyProperty | Theoistic.PDF/ThreadSafeHTMLToPDFConverter.cs:163-180 | one step of the loop: nothing for a null, `Apply` for a keyed property, the nested walk for unkeyed settings, nothing otherwise |
| Converter.ThreadSafeConverter.AddDocumentObject | Theoistic.PDF/ThreadSafeHTMLToPDFConverter.cs:137-144 | a non-null object gets fresh object settings, its config, then is added with its content, and takes one handle |
| Converter.ThreadSafeConverter.AddSlot | Theoistic.PDF/ThreadSafeHTMLToPDFConverter.cs:137-144 | a null entry of the object list makes no call and takes no handle |
| Converter.ThreadSafeConverter.AddDocumentObjects | Theoistic.PDF/ThreadSafeHTMLToPDFConverter.cs:135-145 | the object loop makes the calls of `ObjectCalls` (see `ObjectCallsAddInOrder`) and takes one handle per non-null object |
| Converter.ThreadSafeConverter.CreateConverter | Theoistic.PDF/ThreadSafeHTMLToPDFConverter.cs:123-148 | the global settings and the converter come first, then the objects; the converter returned is the one created from the global settings |
| Converter.ThreadSafeConverter.RunConversion | Theoistic.PDF/ThreadSafeHTMLToPDFConverter.cs:46-62 | the result is the library's output when conversion succeeds and empty otherwise; the callbacks are registered before converting, and the converter is destroyed last |
| Converter.ThreadSafeConverter.ConvertDocument | Theoistic.PDF/ThreadSafeHTMLToPDFConverter.cs:32-63 | a document without objects fails with no native call and the document in progress unchanged; otherwise the document becomes the one in progress, the call sequence is `ConversionTrace` (see `ConversionTraceOrder`), and the result is empty unless conversion succeeds |
| Converter.ThreadSafeConverter.OnPhaseChanged | Theoistic.PDF/ThreadSafeHTMLToPDFConverter.cs:65-77 | the arguments carry the document in progress, the phase count, the current phase and the description of that same phase |
| Converter.ThreadSafeConverter.OnProgressChanged | Theoistic.PDF/ThreadSafeHTMLToPDFConverter.cs:79-88 | the arguments carry the document in progress and the progress text |
| Converter.ThreadSafeConverter.OnFinished | Theoistic.PDF/ThreadSafeHTMLToPDFConverter.cs:90-99 | the arguments carry the document in progress, and success holds exactly when the native flag is 1 |
| Converter.ThreadSafeConverter.OnError | Theoistic.PDF/ThreadSafeHTMLToPDFConverter.cs:101-110 | the arguments carry the document in progress and the message |
| Converter.ThreadSafeConverter.OnWarning | Theoistic.PDF/ThreadSafeHTMLToPDFConverter.cs:112-121 | the arguments carry the document in progress and the message |
| MustacheModel.FindMemberSpec | Theoistic.PDF/MustacheRenderer.cs:185-198 | a member lookup finds nothing exactly when no member of that kind matches the name ignoring case, and otherwise the value of the first one that matches |
| MustacheModel.Split | Theoistic.PDF/MustacheRenderer.cs:176 | splitting a key at dots always gives at least one segment |
| MustacheModel.SplitSegments | Theoistic.PDF/MustacheRenderer.cs:176 | no segment holds a dot |
| MustacheModel.JoinSplit | Theoistic.PDF/MustacheRenderer.cs:176 | the segments joined with dots give the key back, empty segments included |
| MustacheModel.SplitDot | Theoistic.PDF/MustacheRenderer.cs:176 | splitting `a.b` gives the segments of `a` followed by those of `b` |
| MustacheModel.SplitLower | Theoistic.PDF/MustacheRenderer.cs:176-185 | keys equal ignoring case split into as many segments, pairwise equal ignoring case |
| MustacheModel.WalkConcat | Theoistic.PDF/MustacheRenderer.cs:177-204 | walking a path is walking its first part, then the rest from where that leads |
| MustacheModel.ResolveDotted | Theoistic.PDF/MustacheRenderer.cs:171-205 | `a.b` resolves `b` inside whatever `a` resolves to, and is null when that is null (so `Transaction.Amount.Currency` resolves through nesting) |
| MustacheModel.WalkIgnoresCase | Theoistic.PDF/MustacheRenderer.cs:178-202 | paths whose segments are equal ignoring case lead to the same value |
| MustacheModel.FindMemberIgnoresCase | Theoistic.PDF/MustacheRenderer.cs:185-193 | a member lookup gives the same result for names equal ignoring case |
| MustacheModel.ResolveIgnoresCase | Theoistic.PDF/MustacheRenderer.cs:171-205 | keys that differ only in letter case resolve to the same value |
| MustacheModel.PropertyBeforeField | Theoistic.PDF/MustacheRenderer.cs:184-198 | the first property whose name matches is the step taken, whatever fields of that name there are |
| MustacheModel.ResolveModelValue | Theoistic.PDF/MustacheRenderer.cs:171-205 | the loop stepping `current` through the segments computes `Resolve`: null for a null model, a null on the way or a missing member |
| MustacheModel.LookupValue | Theoistic.PDF/MustacheRenderer.cs:162-169 | a null model gives ""; `.` gives the model's own text; otherwise the text of the resolved value, or "" when it is null |
| MustacheScan.LeadingWhiteSpaceSpec | Theoistic.PDF/MustacheRenderer.cs:48 | what `TrimStart` removes is white space, and what it keeps does not start with white space |
| MustacheScan.TrailingWhiteSpaceSpec | Theoistic.PDF/MustacheRenderer.cs:48 | what `TrimEnd` removes is white space, and what it keeps does not end with white space |
| MustacheScan.TrimSpec | Theoistic.PDF/MustacheRenderer.cs:48 | the trimmed tag content is a slice of the content with only white space around it, and neither starts nor ends with white space |
| MustacheScan.TrimIdempotent | Theoistic.PDF/MustacheRenderer.cs:48 | trimming trimmed content changes nothing |
| MustacheScan.TagClose | Theoistic.PDF/MustacheRenderer.cs:26 | a tag's end, when found, is a `}}` at or after the start |
| MustacheScan.TagCloseSpec | Theoistic.PDF/MustacheRenderer.cs:26 | the lazy `.*?` without line feeds: the tag closes at the first `}}` with no line feed before it, and there is no tag when a line feed precedes every `}}` |
| MustacheScan.TagAt | Theoistic.PDF/MustacheRenderer.cs:26 | a tag is found only where the text starts with `{{`, and the index it gives is a `}}` at or after the end of that `{{` |
| MustacheScan.TagAtSpec | Theoistic.PDF/MustacheRenderer.cs:26 | the tag ends at the first `}}` after the opening `{{`, with no line feed before it; no tag is found when the text does not start with `{{` or when every `}}` after it has a line feed before it |
| MustacheScan.TagAtShape | Theoistic.PDF/MustacheRenderer.cs:26 | `{{content}}` whose content has no line feed, no `}}` and does not end with `}` is matched exactly up to its own `}}` |
| MustacheScan.NoTagAt | Theoistic.PDF/MustacheRenderer.cs:26 | text that does not start with `{` does not start a tag |
| MustacheScan.NameEnd | Theoistic.PDF/MustacheRenderer.cs:70 | the section name run ends at the text's end or at a character that is not a letter, digit, `_` or `.` |
| MustacheScan.NameEndSpec | Theoistic.PDF/MustacheRenderer.cs:70 | every character of the name run is a letter, digit, `_` or `.` |
| MustacheScan.FindFrom | Theoistic.PDF/MustacheRenderer.cs:70 | a close tag found lies after the search start and within the text |
| MustacheScan.FindFromSpec | Theoistic.PDF/MustacheRenderer.cs:70 | the lazy body `(.*?)` up to `{{/\1}}`: the first occurrence is found and none before it; when none is found there is none |
| MustacheScan.SectionAt | Theoistic.PDF/MustacheRenderer.cs:70 | a section matched at a position starts there, and its parts lie in order within the text |
| MustacheScan.SectionAtShape | Theoistic.PDF/MustacheRenderer.cs:70-89 | a matched section is exactly `{{#name}}` or `{{^name}}` (inverted exactly for `^`), the body, and `{{/name}}` |
| MustacheScan.SectionAtName | Theoistic.PDF/MustacheRenderer.cs:70-85 | the section name is a non-empty run of letters, digits, `_` and `.`, and the body ends at the first close tag with that name |
| MustacheScan.SectionFrom | Theoistic.PDF/MustacheRenderer.cs:78-83 | a section found from a position starts at or after it, within the text |
| MustacheScan.SectionFromLeftmost | Theoistic.PDF/MustacheRenderer.cs:78-83 | the section found is a match and no match starts before it; when none is found the pattern matches nowhere after the position |
| MustacheScan.FindSection | Theoistic.PDF/MustacheRenderer.cs:78-83 | the section found lies within the text |
| MustacheScan.FindSectionLeftmost | Theoistic.PDF/MustacheRenderer.cs:78-83 | the section handled is the leftmost match of the pattern, and when none is found the pattern matches nowhere |
| MustacheRender.ShouldRenderSection | Theoistic.PDF/MustacheRenderer.cs:137-160 | null is falsy, a bool is its own value, a non-string enumerable is truthy when it has items, any other value is truthy; an inverted section negates that |
| MustacheRender.PlainTextKept | Theoistic.PDF/MustacheRenderer.cs:44-59 | text without an opening brace passes through the variable pass unchanged |
| MustacheRender.VariableTagReplaced | Theoistic.PDF/MustacheRenderer.cs:46-57 | a tag whose content has no line feed, no `}}` and does not end with `}` is replaced by the text of the value its trimmed content names; one whose trimmed content starts with `#`, `^` or `/` is kept verbatim |
| MustacheRender.Render | Theoistic.PDF/MustacheRenderer.cs:28-31 | rendering is `RenderTemplate` on the whole template and model |
| MustacheRender.RenderTemplate | Theoistic.PDF/MustacheRenderer.cs:33-42 | the section pass, then the variable pass over its output, with the same model |
| MustacheRender.RenderSections | Theoistic.PDF/MustacheRenderer.cs:61-95 | the loop computes the section pass: the leftmost section is replaced by its rendering until none is left (see `SectionsPassLeavesNoSection`) |
| MustacheRender.RenderSection | Theoistic.PDF/MustacheRenderer.cs:97-135 | the StringBuilder loop and the branches compute `SectionRendered` (see the section lemmas below) |
| MustacheRender.NoSectionsNoFuel | Theoistic.PDF/MustacheRenderer.cs:75-79 | a template without sections is rendered by the variable pass alone, whatever the fuel |
| MustacheRender.SectionsPassDone | Theoistic.PDF/MustacheRenderer.cs:78-79 | when no section matches, the section pass stops and returns the text unchanged |
| MustacheRender.SectionsPassReplace | Theoistic.PDF/MustacheRenderer.cs:81-90 | one iteration replaces exactly the leftmost match by its rendering and continues from the new text |
| MustacheRender.SectionsPassLeavesNoSection | Theoistic.PDF/MustacheRenderer.cs:75-92 | the output of the section pass contains no well-formed section |
| MustacheRender.InvertedSectionIsEmpty | Theoistic.PDF/MustacheRenderer.cs:99-134 | as written, an inverted section always renders to the empty string: a truthy value is skipped, and a falsy one reaches the false-bool, empty-list or null branch |
| MustacheRender.FalsySectionIsEmpty | Theoistic.PDF/MustacheRenderer.cs:99-105 | a section whose value is falsy (null, false, an empty list) is replaced by the empty string, so a null `Voucher` removes the whole voucher block |
| MustacheRender.TrueSectionKeepsModel | Theoistic.PDF/MustacheRenderer.cs:117-123 | a true-bool section renders its body with the unchanged model |
| MustacheRender.ValueSectionIsModel | Theoistic.PDF/MustacheRenderer.cs:124-128 | a section whose value is any other non-null, non-list value renders its body with that value as the model |
| MustacheRender.ItemsRenderedConcat | Theoistic.PDF/MustacheRenderer.cs:108-116 | the item loop renders the body once per item, in order, with the item as the model, and concatenates the results |
| MustacheRender.ListSectionRendersEachItem | Theoistic.PDF/MustacheRenderer.cs:108-116 | a non-empty list section is the concatenation of its body rendered with each item, in order |
| MustacheRender.RenderedFuelMonotone | Theoistic.PDF/MustacheRenderer.cs:33-42 | a rendering that completes with some fuel is the same with more fuel, so the fuel bound never changes a result |
| MustacheRender.SectionsPassFuelMonotone | Theoistic.PDF/MustacheRenderer.cs:75-92 | a section pass that completes is the same with more fuel |
| MustacheRender.ItemsRenderedFuelMonotone | Theoistic.PDF/MustacheRenderer.cs:108-116 | rendering the items that completes is the same with more fuel |
| MustacheRender.SectionRenderedFuelMonotone | Theoistic.PDF/MustacheRenderer.cs:97-135 | a section rendering that completes is the same with more fuel |
| TextReplace.ReplaceAbsent | Theoistic.PDF/PDFBuilder.cs:96 | text in which the pattern does not occur is left unchanged |
| TextReplace.ReplaceFirst | Theoistic.PDF/PDFBuilder.cs:96 | for a pattern that cannot overlap itself, the first occurrence is replaced, the text before it is kept, and replacing resumes after it |
| TextReplace.ReplaceJoin | Theoistic.PDF/PDFBuilder.cs:96 | every occurrence is replaced and nothing else changes: pieces joined by the pattern become the same pieces joined by the replacement |
| TextReplace.JoinPieces | Theoistic.PDF/PDFBuilder.cs:96 | the pieces between the occurrences of a pattern, joined by the pattern, give the text back |
| TextReplace.PiecesClean | Theoistic.PDF/PDFBuilder.cs:96 | no piece between the occurrences of a pattern holds the pattern |
| TextReplace.ReplaceCharCons | Theoistic.PDF/PDFBuilder.cs:76 | with a one-character pattern, the first character is replaced or kept on its own |
| TextReplace.ReplaceCharConcat | Theoistic.PDF/PDFBuilder.cs:76 | with a one-character pattern, replacing distributes over concatenation |
| HeadInjection.HeadCloseBorderless | Theoistic.PDF/PDFBuilder.cs:96 | two occurrences of `</head>` can never overlap |
| HeadInjection.BlockBeforeEveryHeadClose | Theoistic.PDF/PDFBuilder.cs:92-97 | any page, cut at its `</head>` tags into pieces without one, is those pieces joined by `</head>`, and the result is the same pieces joined by the block and `</head>`: the block lands in front of each `</head>` and nothing else changes |
| HeadInjection.NoHeadCloseUnchanged | RazorPDF/PDFBuilder.cs:92-95 | a page without `</head>` is left as it is |
| TheoisticBuilder.FileUrlEscapes | Theoistic.PDF/PDFBuilder.cs:76 | the two replacements together escape the full path one character at a time: `\` becomes `/`, a space becomes `%20`, and every other character is kept, in order |
| TheoisticBuilder.TwoReplacementsEscape | Theoistic.PDF/PDFBuilder.cs:76 | replacing `\` by `/` and then spaces by `%20` is the per-character escape |
| TheoisticBuilder.EscapedPathClean | Theoistic.PDF/PDFBuilder.cs:76 | the escaped path holds no backslash and no space |
| TheoisticBuilder.CleanPathKept | Theoistic.PDF/PDFBuilder.cs:76 | a path without backslashes and spaces appears in the URL as it is |
| TheoisticBuilder.FileUrlClean | Theoistic.PDF/PDFBuilder.cs:76 | the link URL starts with `file:///` and after it holds no backslash and no space |
| TheoisticBuilder.CssBeforeEveryHeadClose | Theoistic.PDF/PDFBuilder.cs:92-97 | for any page: with no stylesheet or an empty one the page is unchanged; otherwise the pieces between its `</head>` tags are joined by NewLine, the link tag, NewLine and `</head>` (see `BlockBeforeEveryHeadClose`), so every `</head>` is preceded by the tag and nothing else changes |
| TheoisticBuilder.PdfBuilder.constructor | Theoistic.PDF/PDFBuilder.cs:58-62 | a new builder has no stylesheet and no settings yet |
| TheoisticBuilder.PdfBuilder.GetObjectSettings | Theoistic.PDF/PDFBuilder.cs:14-31 | the object settings are created with the UTF-8 default on first use and the same object is returned afterwards |
| TheoisticBuilder.PdfBuilder.GetGlobalSettings | Theoistic.PDF/PDFBuilder.cs:34-53 | the global settings are created as Color/Portrait/A4 on first use and the same object is returned afterwards |
| TheoisticBuilder.PdfBuilder.Settings | Theoistic.PDF/PDFBuilder.cs:64-69 | the global settings become the action applied to a fresh object, not to the lazy defaults; nothing else changes |
| TheoisticBuilder.PdfBuilder.InjectCss | Theoistic.PDF/PDFBuilder.cs:71-82 | a missing file fails with its name and leaves the stylesheet unchanged; otherwise the stylesheet is the link tag for the file's URL (see `FileUrlEscapes`) |
| TheoisticBuilder.PdfBuilder.BuildAsync | Theoistic.PDF/PDFBuilder.cs:84-108 | with an action the object settings are the action applied to a fresh object; their content becomes the page with the stylesheet injected; the document holds the global settings (lazily defaulted) and exactly that one object |
| RazorBuilder.StyleBeforeEveryHeadClose | RazorPDF/PDFBuilder.cs:92-95 | for any rendered page: with no stylesheet or an empty one it is unchanged; otherwise the pieces between its `</head>` tags are joined by `<style>`, NewLine, the stylesheet, NewLine, `</style>`, NewLine and `</head>` (see `BlockBeforeEveryHeadClose`), so every `</head>` is preceded by the style block and nothing else changes |
| RazorBuilder.NoHeadNoStyle | RazorPDF/PDFBuilder.cs:92-95 | a rendered page without `</head>` gets no stylesheet at all |
| RazorBuilder.PdfBuilder.constructor | RazorPDF/PDFBuilder.cs:58-62 | a new builder has no stylesheet, settings, view or model yet |
| RazorBuilder.PdfBuilder.GetObjectSettings | RazorPDF/PDFBuilder.cs:14-31 | the object settings are created with the UTF-8 default on first use and the same object is returned afterwards |
| RazorBuilder.PdfBuilder.GetGlobalSettings | RazorPDF/PDFBuilder.cs:34-53 | the global settings are created as Color/Portrait/A4 on first use and the same object is returned afterwards |
| RazorBuilder.PdfBuilder.RazorView | RazorPDF/PDFBuilder.cs:64-69 | the view name and model are stored unchanged, and nothing else changes |
| RazorBuilder.PdfBuilder.Settings | RazorPDF/PDFBuilder.cs:71-76 | the global settings become the action applied to a fresh object; nothing else changes |
| RazorBuilder.PdfBuilder.InjectCss | RazorPDF/PDFBuilder.cs:78-86 | a missing file fails with its name and leaves the stylesheet unchanged; otherwise the stylesheet is the file's whole text |
| RazorBuilder.PdfBuilder.BuildHtmlAsync | RazorPDF/PDFBuilder.cs:88-98 | the page is the view rendered with the model, with the `<style>` block before every `</head>` (see `StyleBeforeEveryHeadClose`); the builder is not changed |
| RazorBuilder.PdfBuilder.BuildAsync | RazorPDF/PDFBuilder.cs:100-121 | with an action the object settings are the action applied to a fresh object; their content becomes the built page; the document holds the global settings (lazily defaulted) and exactly that one object |

## Left out

- The worker thread (`Invoke`, `StartThread`, `StopThread`, `Run` in Theoistic.PDF/ThreadSafeHTMLToPDFConverter.cs:231-306) is concurrency and is not modelled. `ConvertDocument` is what one queued job runs. The spin condition in `StopThread` (line 282) is inverted, but that method is never called.
- The native wkhtmltopdf calls are foreign calls. `Backend.PdfTools` records them as a trace instead. Whether a conversion succeeds and the bytes it produces are fixed when the recorder is created.
- The native queries inside the callbacks (phase count, current phase, phase description, progress text) are parameters of the `On*` functions. Invoking the multicast events is left out; only the argument records are built.
- The formatting of doubles with "0.##" in the invariant culture is floating point. `Marshal.Value.Num` carries the already formatted text.
- `ToString()` of arbitrary objects, including enum and nested settings values, is opaque. Each value carries its own text.
- Reflection is replaced by explicit lists of members:
  - the order of `GetProperties` is the order of the list;
  - the leading `WkHtml` attribute is an optional key;
  - the case-insensitive `GetProperty`/`GetField` lookups are `FindMember`.
  The `AmbiguousMatchException` reflection throws when two members differ only in case is not modelled; the first match is taken.
- Case-insensitive names fold ASCII letters only. .NET folds all of Unicode.
- MustacheRender.IsSectionTag: the culture-sensitive `StartsWith("#")`, `StartsWith("^")` and `StartsWith("/")` tests of the variable pass (Theoistic.PDF/MustacheRenderer.cs:51) are modelled as ordinal tests of the first character, so a content starting with a code point the current culture ignores (such as a soft hyphen) before `#`, `^` or `/` is not modelled.
- MustacheModel.Members: the members of a string or a bool (such as a string's `Length`) are not modelled; a dotted path through a string or a bool resolves to null and renders as "", where the code would read a string's `Length` (Theoistic.PDF/MustacheRenderer.cs:184-189) and would throw on its `Chars` indexer.
- The .NET regular-expression engine is not modelled. The two Mustache patterns and the builders' `</head>` replacement are matched by hand. The builders' replacement strings are taken literally, so a `$` substitution inside the stylesheet text or path is not modelled.
- Mustache rendering need not terminate: a value's text may rebuild its own section. The specification carries fuel, and `None` means the fuel ran out. A rendering that completes gives the same result with any more fuel (`RenderedFuelMonotone`). Templates that loop forever are not characterised further.
- MustacheRender.Render: the result is an `Option`, and `None` is returned when the fuel runs out, where the code would keep running.
- File.Exists, File.ReadAllText, Path.GetFullPath, Environment.NewLine and the Razor view renderer are parameters of the builder methods. Dependency-injection scopes, `async` and `Dispose` are left out.
- TheoisticBuilder.PdfBuilder.BuildAsync: returns the assembled document instead of the converted bytes. The call to `Convert` is not part of the builder's model.
- RazorBuilder.PdfBuilder.BuildAsync: returns the assembled document instead of the converted bytes. The converter it creates and the call to `Convert` are not part of the builder's model.
- The settings classes (`GlobalSettings`, `ObjectSettings` and their `WkHtml` keys) are not part of this model beyond the members the builders set. The builders' settings are therefore not linked to the marshaler's field lists.
- Settings objects are values. The aliasing between the builder's stored object settings and the object placed in the document is not modelled; both are the same value at the end of `BuildAsync`.
- Theoistic.PDF/RazorPDFExtensions.cs (native library resolution and service registration) is not part of this model, and neither is PDFWebTest/Pages/Index.cshtml.cs (an empty page handler).
