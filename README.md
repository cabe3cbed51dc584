# JSON Studio core, modelled in Dafny

JSON Studio is a browser JSON editor with a code view, a collapsible tree view, a
two-pane diff editor and AI helpers (repair, TypeScript schema, explanation) backed by
the Gemini API. This project models the rules behind those features and proves what
they promise:

- **Tree node** (`json_node.dfy`, module `JsonNode`): how a value is classified and
  rendered, the collapsed preview with its priority-key choice, child properties and
  paths, pagination in pages of 50, trailing commas, the copy-path text, and the
  per-node state (`NodeState`: expanded, visible count, copy acknowledgement).
- **Paths** (`node_path.dfy`, module `NodePaths`): walks down the tree the way nested
  nodes pass paths to their children, and reads a path string back into its steps.
  `ParsePath` is a reference definition written for the proofs; the program has no
  path parser.
- **Tree panel** (`json_tree.dfy`, module `JsonTree`): the empty state, the invalid
  placeholder, the root node and the size-based initial depth.
- **AI service** (`ai_service.dfy`, module `AiService`): the `models/` name
  normalisation, `auto` resolution, model selection from a listing, the listing
  filter, the prompts, classifying a reply, and removing markdown fences.
- **Diff editor** (`diff_editor.dfy`, module `DiffEditor`): the two pane buffers as a
  class (`DiffPanes`) with swap, copy, clear, paste, apply and smart sort, and the
  choice of the next or previous change with wrap-around.
- **Store** (`json_store.dfy`, module `JsonStore`): the application store as a class
  (`Store`). It covers `setText` and the fields derived from parsing, format, minify and
  clear, the setters, the AI actions with their key guard and busy flags, and the
  persisted projection with the rehydrate rule.
- Shared helpers: `Wrappers` (Option, Result), `Text` (JavaScript `trim`,
  `startsWith`, `includes`, `toLowerCase` as used here, and `String` of an integer), and
  `Seqs` (`filter`, `find`, reversal).

JSON values are a datatype. An object is a sequence of (key, value) pairs in the
order `Object.keys` lists them, and numbers are integers. A JavaScript `null` in
`parsedData` is `JNull`, both for the literal `null` and for a failed parse.
`JSON.parse`, `JSON.stringify` and `formatAndSortJSON` are function-typed inputs: the
store is built with a parse oracle and two serialisers, and smart sort takes the sorter
as a parameter. The Gemini HTTP exchanges are inputs as well. A models listing and a
generation reply arrive as records, and each store action receives its service call as
a function from (text, key, preferred model) to a success or failure outcome.

Behaviour of the code worth knowing:

- The preview takes the priority keys in document order (a `filter` over the keys).
  So `{"zz":1,"name":"Bob","id":42}` previews as `{ name: "Bob", id: 42, zz: 1 }`.
- When priority keys exist, the first non-priority key is added after them, and only
  that one; the list is then cut to three keys.
- `showMore` adds 50 with no cap. A container of 120 children goes 50 → 100 → 150,
  and the button disappears once the count reaches the number of children.
- The tree panel computes an initial depth (3 for fewer than 10000 UTF-16 code units, 1 for
  fewer than 50000, else 0) and passes it as `defaultExpandedDepth`. The node never
  reads it: a node starts expanded only at depth 0. The comment beside the thresholds
  says depth 2 for the middle band, but the code uses 1.
- The store file declares no `diffLeft`/`diffRight` fields, although the diff editor
  reads them from the store. The two buffers are the separate `DiffPanes` class.
- The initial store state has empty text with `isValid` true and no error. That is
  not what parsing the empty text gives, so the constructor does not establish
  `Synced()`; every action that goes through `setText` does.

## Model

| member | source | states |
|---|---|---|
| JsonNode.RenderScalar | src/components/JsonTree/JsonNode.tsx:52-56 | a scalar's text is non-empty, and it starts with a double quote exactly when the value is a string |
| JsonNode.RenderScalarInjective | src/components/JsonTree/JsonNode.tsx:52-56 | a string renders as its text between two quotes with nothing escaped, and two scalars that render alike are equal (`null`, `"null"`, `true`, numbers never collide) |
| JsonNode.NumberRenderingStart | src/components/JsonTree/JsonNode.tsx:55 | a scalar is a number exactly when its rendering starts with a digit or a minus sign |
| Text.IntToString | src/components/JsonTree/JsonNode.tsx:55 | `String(n)` of an integer: non-empty, starts with `-` exactly for negatives, otherwise the decimal digits |
| Text.IntToStringInjective | src/components/JsonTree/JsonNode.tsx:55 | distinct integers render differently |
| Text.NatToString | src/components/JsonTree/JsonNode.tsx:60 | a decimal rendering is all digits, non-empty, without leading zeros |
| Text.NatToStringRoundTrip | src/components/JsonTree/JsonNode.tsx:60 | reading the decimal digits back gives the number |
| Text.LowerChar | src/components/JsonTree/JsonNode.tsx:67 | a lower-cased character that is an ASCII lower-case letter came from an ASCII letter or the Kelvin sign |
| Text.ToLower | src/components/JsonTree/JsonNode.tsx:67 | `toLowerCase` keeps the length and maps each character independently |
| Seqs.Filter | src/components/JsonTree/JsonNode.tsx:67 | `filter` keeps exactly the elements satisfying the predicate, drops none and adds none |
| Seqs.FilterConcat | src/components/JsonTree/JsonNode.tsx:73 | filtering keeps the original order: it distributes over concatenation |
| Seqs.FilterHead | src/components/JsonTree/JsonNode.tsx:73 | `filter` keeps something exactly when `find` finds something, and its first element is the one `find` stops at |
| JsonNode.PreviewMembers | src/components/JsonTree/JsonNode.tsx:66-75 | at most three previewed keys, and none exactly for an empty object |
| JsonNode.PreviewMembersChoice | src/components/JsonTree/JsonNode.tsx:66-75 | previewed keys are keys of the object; with priority keys present (compared lower-cased) the priority keys come first in document order, the count is `min(3, priorities + min(1, others))`, and the key after them is the first non-priority key exactly when fewer than three priority keys and some other key exist; every priority key appears when there are at most three; without priority keys, the first three keys |
| JsonNode.PreviewPart | src/components/JsonTree/JsonNode.tsx:77-81 | a preview part starts with the key, a colon and a space, followed by some text |
| JsonNode.Join | src/components/JsonTree/JsonNode.tsx:83 | joining nothing gives the empty text, and a joined list starts with its first part |
| JsonNode.Preview | src/components/JsonTree/JsonNode.tsx:58-84 | an array's summary ends in ` items`, and an object's summary is braced |
| JsonNode.PreviewPartEnd | src/components/JsonTree/JsonNode.tsx:77-81 | a preview part is `key: ` followed by text; it ends in `]` exactly when the value is a nested container (shown as `[...]`), and never in a dot |
| JsonNode.JoinEnd | src/components/JsonTree/JsonNode.tsx:83 | a joined list ends with the last character of its last part |
| JsonNode.PreviewShape | src/components/JsonTree/JsonNode.tsx:58-84 | an array previews as `<length> items`, an empty object as `{}`, any other object as `{ … }` ending in `, ... }` exactly when it has more keys than were previewed |
| JsonNode.ObjectPreviewEnd | src/components/JsonTree/JsonNode.tsx:83 | the braces and the ellipsis of a non-empty object preview, with the ellipsis exactly when keys were left out |
| JsonNode.BracedEnd | src/components/JsonTree/JsonNode.tsx:83 | braced text ends in `, ... }` exactly when the ellipsis was added, given the parts do not end in a dot |
| JsonNode.PreviewParts | src/components/JsonTree/JsonNode.tsx:77-81 | one part per previewed key, in order |
| JsonNode.ChildProps | src/components/JsonTree/JsonNode.tsx:160-171 | child `i` is one level deeper, is last exactly when `i` is the last index of the full key list, has no name in an array and its key in an object, and has the parent's path followed by `[i]` or `["key"]` with the key unescaped |
| JsonNode.VisibleChildren | src/components/JsonTree/JsonNode.tsx:114-115 | the rendered children are the first `min(visibleCount, n)` children, in order |
| JsonNode.LastChildMarking | src/components/JsonTree/JsonNode.tsx:165 | some visible child is marked last (so has no comma) exactly when the whole container fits the page, and then only the final one |
| JsonNode.VisibleChildrenGrow | src/components/JsonTree/JsonNode.tsx:115 | a larger page keeps every child already visible, unchanged and in place |
| JsonNode.MoreOffer | src/components/JsonTree/JsonNode.tsx:173-179 | the button is shown exactly when `n > visibleCount`, offers `min(50, n - visibleCount)` more (at least one) and counts the rest as remaining |
| JsonNode.Render | src/components/JsonTree/JsonNode.tsx:86-190 | a node renders as a scalar line exactly when its value is not a container, and carries a comma exactly when it is not last |
| JsonNode.RenderContract | src/components/JsonTree/JsonNode.tsx:86-190 | a node is a scalar line exactly when the value is not a container; the comma appears exactly when not last; a scalar is labelled by its key, else by a bullet when it has a path, else not at all, and a container by its key or not at all; a container shows its array or object icon; an empty container has no chevron and no children, any other points down when expanded and right when collapsed; collapsed shows the preview and no children; expanded and non-empty shows the first `min(visibleCount, n)` children and exactly the "show more" offer `MoreOffer(n, visibleCount)` |
| JsonNode.CopyTarget | src/components/JsonTree/JsonNode.tsx:25-26 | the copied text is the path when there is one; with no path and a name it is the name as an object segment `["name"]`; it is empty (nothing copied) exactly when name and path are both empty |
| JsonNode.NodeState.constructor | src/components/JsonTree/JsonNode.tsx:15-17 | a node starts expanded exactly at depth 0, with 50 visible children and no copy acknowledgement |
| JsonNode.NodeState.Toggle | src/components/JsonTree/JsonNode.tsx:34-37 | flips `expanded` and changes nothing else |
| JsonNode.NodeState.ShowMore | src/components/JsonTree/JsonNode.tsx:39-42 | adds exactly 50 to `visibleCount`, uncapped, and changes nothing else |
| JsonNode.NodeState.CopyPath | src/components/JsonTree/JsonNode.tsx:23-32 | copies the copy target unless it is empty, and raises the acknowledgement only when something was copied |
| JsonNode.NodeState.CopyAcknowledged | src/components/JsonTree/JsonNode.tsx:31 | the timer clears the acknowledgement |
| NodePaths.PathOfAppend | src/components/JsonTree/JsonNode.tsx:170 | the path of one more step is the path so far followed by that step's segment |
| NodePaths.ChildAtPath | src/components/JsonTree/JsonNode.tsx:169-170 | a child has its parent's path followed by its own segment, one level deeper |
| NodePaths.WalkPath | src/components/JsonTree/JsonNode.tsx:161-171 | a node reached through nested children has its ancestor's path followed by the segments of the steps taken, one level deeper per step |
| NodePaths.PathRoundTrip | src/components/JsonTree/JsonNode.tsx:170 | a path whose keys hold no double quote reads back as exactly the steps that built it |
| NodePaths.SegmentParses | src/components/JsonTree/JsonNode.tsx:170 | one segment reads back as its step and leaves the rest to be read |
| NodePaths.KeySegmentParses | src/components/JsonTree/JsonNode.tsx:170 | an object segment `["key"]` reads back as its key |
| NodePaths.IndexSegmentParses | src/components/JsonTree/JsonNode.tsx:170 | an array segment `[i]` reads back as its index |
| NodePaths.QuoteFreeTail | src/components/JsonTree/JsonNode.tsx:170 | the quote-free condition holds for the head and the tail of the steps |
| NodePaths.PathInjective | src/components/JsonTree/JsonNode.tsx:170 | distinct step sequences with quote-free keys give distinct paths |
| NodePaths.UnescapedKeyCollision | src/components/JsonTree/JsonNode.tsx:170 | because keys are embedded unescaped, a root key `a"]["b` gets the same path as key `b` under key `a` |
| Text.TrimStart | src/components/JsonTree/JsonTree.tsx:9 | removes exactly the leading JavaScript whitespace |
| Text.TrimEnd | src/components/JsonTree/JsonTree.tsx:9 | removes exactly the trailing JavaScript whitespace |
| Text.Trim | src/components/JsonTree/JsonTree.tsx:9 | the result neither starts nor ends with whitespace, and is empty exactly when the text is all whitespace |
| Text.TrimUnchanged | src/services/aiService.ts:63 | text without whitespace at either end is unchanged by trimming |
| JsonTree.RootProps | src/components/JsonTree/JsonTree.tsx:47-51 | the root node holds the parsed value, is last, sits at depth 0 and has nothing to copy |
| JsonTree.View | src/components/JsonTree/JsonTree.tsx:9-52 | the empty state exactly for blank text; the invalid placeholder exactly for non-blank text that is invalid or parses to `null`; otherwise exactly the root node of the parsed value and the initial depth for the text's `length` in UTF-16 code units |
| Text.Utf16Length | src/components/JsonTree/JsonTree.tsx:42 | `length` counts between one and two code units per character, and exactly one per character when all lie in the Basic Multilingual Plane |
| JsonTree.InitialDepth | src/components/JsonTree/JsonTree.tsx:42-43 | the initial depth is 3 below a length of 10000, 1 below 50000 and 0 from there on |
| JsonTree.InitialDepthMonotone | src/components/JsonTree/JsonTree.tsx:43 | a larger document never gets a deeper initial depth |
| JsonTree.RootAndDescendants | src/components/JsonTree/JsonTree.tsx:47-51 | the root has no trailing comma and copies nothing; every node reached below it carries exactly the path of the steps taken, at that depth, and copies that path |
| AiService.CleanModelName | src/services/aiService.ts:31 | the result starts with `models/` and ends with the given name, and an already prefixed name is returned unchanged |
| AiService.CleanModelNameIdempotent | src/services/aiService.ts:105 | normalising twice is normalising once |
| AiService.ResolveModel | src/services/aiService.ts:5-7 | the preferred model is used unless it is empty or `auto`, in which case the best listed model is |
| AiService.ListModels | src/services/aiService.ts:188-204 | exactly the models supporting `generateContent`, in listing order, and none when the listing fails |
| AiService.FirstPreferred | src/services/aiService.ts:165-170 | the `find` chain picks a position of the capable list, and picks none only for an empty list |
| AiService.FirstPreferredChoice | src/services/aiService.ts:165-170 | the first name fragment that some capable model contains decides, and the first such model is picked; when no fragment matches, the first capable model |
| AiService.BestModel | src/services/aiService.ts:141-183 | a failed listing request or a listing that is not `ok` gives the fallback model |
| AiService.BestModelChoice | src/services/aiService.ts:141-183 | the chosen name belongs to a capable listed model, and the fallback `gemini-1.5-flash-001` is used exactly when the listing failed or had no capable model |
| AiService.BestModelPrefersFlash | src/services/aiService.ts:166 | when a capable `gemini-1.5-flash` model exists, the first one is chosen |
| Seqs.FindIndex | src/services/aiService.ts:166 | `find` stops at the first element satisfying the predicate, and finds none exactly when no element does |
| AiService.TagLength | src/services/aiService.ts:130 | a language tag match stays within the text |
| AiService.FenceLength | src/services/aiService.ts:63 | a fence match starts with three backticks and stays within the text |
| AiService.RemoveFences | src/services/aiService.ts:63 | removing fences never lengthens the text |
| AiService.NoFenceLeft | src/services/aiService.ts:63 | after fence removal no three backticks in a row remain, whatever the text and the language tags |
| AiService.TrimmedNoFence | src/services/aiService.ts:63 | trimming text without a fence leaves it without a fence |
| AiService.CleanFixReply | src/services/aiService.ts:63 | the cleaned repair reply contains no fence and starts and ends with non-whitespace |
| AiService.CleanReply | src/services/aiService.ts:130 | the cleaned generic reply contains no fence and starts and ends with non-whitespace |
| AiService.RemoveFencesKeepsPlainPrefix | src/services/aiService.ts:63 | text without a backtick passes through fence removal unchanged, also in front of other text |
| AiService.PlainReplyOnlyTrimmed | src/services/aiService.ts:63 | a reply without a backtick is only trimmed, by the fix cleanup and by the generic one |
| AiService.FencedReplyUnwrapped | src/services/aiService.ts:130 | a body wrapped in a ```` ```json ```` or ```` ```typescript ```` fence is unwrapped to the trimmed body |
| AiService.FenceThenPlain | src/services/aiService.ts:130 | an opening fence, a backtick-free body and a closing fence leave exactly the body |
| AiService.ReplyText | src/services/aiService.ts:118-128 | the reply text is obtained only from an `ok` readable reply with non-empty text, and a failed request or an unreadable body fails with its own message |
| AiService.ReplyClassification | src/services/aiService.ts:118-128 | a readable reply succeeds exactly when it is ok with text; a failed one reports the rate limit for status 429 whatever the server said, else the server's message, else `Failed to contact Gemini`; ok without text reports `No response from AI` |
| AiService.FixJsonWithGemini | src/services/aiService.ts:1-69 | the call goes to a `models/` name: the preferred one when given, else the best listed model; with the repair prompt followed by the content; it succeeds exactly when the reply does, with the fenced-`json` cleanup of the reply, and otherwise fails with the reply's error |
| AiService.GenericPrompt | src/services/aiService.ts:106 | the prompt is exactly the system prompt, a blank line, `JSON:`, a newline and the content |
| AiService.CallGemini | src/services/aiService.ts:98-135 | as the repair call (preferred or best listed model, success exactly with the reply's, cleaned value, the reply's error otherwise), with the generic prompt and the cleanup that also removes `typescript` fences |
| AiService.GenerateSchema | src/services/aiService.ts:71-82 | the generic prompt with the TypeScript-interface instructions before the content, the preferred or best listed model, and the cleaned reply or the reply's error |
| AiService.ExplainJson | src/services/aiService.ts:84-95 | the generic prompt with the explanation instructions before the content, the preferred or best listed model, and the cleaned reply or the reply's error |
| DiffEditor.DiffPanes.constructor | src/components/DiffEditor/DiffEditor.tsx:21-22 | the panes hold the given texts |
| DiffEditor.DiffPanes.Swap | src/components/DiffEditor/DiffEditor.tsx:29-34 | exchanges the two panes |
| DiffEditor.SwapTwice | src/components/DiffEditor/DiffEditor.tsx:29-34 | swapping twice restores both panes |
| DiffEditor.DiffPanes.CopyLeft | src/components/DiffEditor/DiffEditor.tsx:55-58 | the modified pane becomes the original's text; the original is untouched |
| DiffEditor.DiffPanes.ClearRight | src/components/DiffEditor/DiffEditor.tsx:227 | the modified pane becomes empty; the original is untouched |
| DiffEditor.DiffPanes.EditRight | src/components/DiffEditor/DiffEditor.tsx:149-153 | an edit in the modified pane is stored in its buffer |
| DiffEditor.DiffPanes.PasteRight | src/components/DiffEditor/DiffEditor.tsx:43-53 | a non-empty clipboard text replaces the modified pane; an empty one changes nothing; a failed read changes nothing and reports an error |
| DiffEditor.DiffPanes.Apply | src/components/DiffEditor/DiffEditor.tsx:36-41 | after confirmation the store's text becomes the modified pane, with its derived fields; without it the store is unchanged |
| DiffEditor.DiffPanes.SmartSort | src/components/DiffEditor/DiffEditor.tsx:60-71 | both panes end as their sorted forms; a change is reported exactly when one of them differed, and otherwise both are unchanged |
| DiffEditor.SmartSortTwice | src/components/DiffEditor/DiffEditor.tsx:60-71 | with a sorter that reaches its fixed point in one step, a second sort reports `Already sorted` |
| Seqs.Reverse | src/components/DiffEditor/DiffEditor.tsx:90 | reversal puts element `i` at position `n - 1 - i` |
| DiffEditor.NextIndex | src/components/DiffEditor/DiffEditor.tsx:86-88 | `next` picks the first chunk starting after the cursor, or wraps to the first chunk when none does |
| DiffEditor.PrevIndex | src/components/DiffEditor/DiffEditor.tsx:89-92 | `prev` picks the last chunk starting before the cursor, or wraps to the last chunk when none does |
| DiffEditor.ScrollToChange | src/components/DiffEditor/DiffEditor.tsx:73-105 | nothing happens before the view is mounted or without chunks; otherwise the target is one of the chunks |
| DiffEditor.NextIsNearestAfter | src/components/DiffEditor/DiffEditor.tsx:86-88 | with chunks in document order, `next` goes to the nearest change after the cursor, or wraps to the first |
| DiffEditor.PrevIsNearestBefore | src/components/DiffEditor/DiffEditor.tsx:89-92 | with chunks in document order, `prev` goes to the nearest change before the cursor, or wraps to the last |
| JsonStore.DerivedFieldsMeaning | src/store/useJsonStore.ts:134-142 | after parsing, `isValid` holds exactly when the parse succeeded, `error` is absent exactly when valid, and a failed parse leaves `null` data and the parser's message |
| JsonStore.Reserialize | src/utils/jsonUtils.ts:18-34 | formatting and minifying serialise the parsed value, and return invalid text as it is |
| JsonStore.Store.constructor | src/store/useJsonStore.ts:50-65 | the initial state: empty text marked valid, dark theme, split view, no key, `auto` model, all flags down, no generated content |
| JsonStore.Store.SetText | src/store/useJsonStore.ts:134-142 | stores the text and derives data, error and validity from parsing it; nothing else changes |
| JsonStore.Store.Format | src/store/useJsonStore.ts:144-148 | the text becomes its pretty serialisation (invalid text is kept) and the derived fields agree with it; with a faithful serialiser, valid data is preserved |
| JsonStore.Store.Minify | src/store/useJsonStore.ts:150-154 | the same with the compact serialisation |
| JsonStore.Store.Clear | src/store/useJsonStore.ts:156-158 | the text becomes empty and the derived fields agree with parsing it |
| JsonStore.Store.SetTheme | src/store/useJsonStore.ts:68-71 | sets the theme and nothing else |
| JsonStore.Store.SetViewMode | src/store/useJsonStore.ts:73 | sets the view mode and nothing else |
| JsonStore.Store.SetApiKey | src/store/useJsonStore.ts:75 | sets the key and nothing else |
| JsonStore.Store.SetPreferredModel | src/store/useJsonStore.ts:77 | sets the preferred model and nothing else |
| JsonStore.Store.SetAiModalOpen | src/store/useJsonStore.ts:79 | sets the settings-dialog flag and nothing else |
| JsonStore.Store.SetInfoModalOpen | src/store/useJsonStore.ts:80 | sets the info-dialog flag and nothing else |
| JsonStore.Store.SetGeneratedContent | src/store/useJsonStore.ts:66 | sets the generated content and nothing else |
| JsonStore.Store.StartFix | src/store/useJsonStore.ts:84-87 | without a key only the settings dialog opens; with one only `isFixing` is raised |
| JsonStore.Store.FinishFix | src/store/useJsonStore.ts:88-97 | `isFixing` is lowered on both paths; success replaces the text through `setText`; failure leaves text and derived fields untouched |
| JsonStore.Store.FixJsonWithAI | src/store/useJsonStore.ts:83-98 | without a key only the dialog opens; with one the flag is up during the call and down afterwards, and the text is the fixed one on success and untouched on failure |
| JsonStore.Store.StartGenerating | src/store/useJsonStore.ts:101-104 | without a key only the settings dialog opens; with one only `isGenerating` is raised |
| JsonStore.Store.FinishGenerating | src/store/useJsonStore.ts:105-114 | `isGenerating` is lowered on both paths; success shows the result under its title; failure leaves the generated content untouched |
| JsonStore.Store.GenerateWithAI | src/store/useJsonStore.ts:100-132 | the shared lifecycle of the two generating actions: guard, flag up during the call, flag down after, content set only on success |
| JsonStore.Store.GenerateSchemaWithAI | src/store/useJsonStore.ts:100-115 | as above, titled `TypeScript Schema`; with a key the settings dialog stays as it was |
| JsonStore.Store.ExplainJsonWithAI | src/store/useJsonStore.ts:117-132 | as above, titled `Explanation`; with a key the settings dialog stays as it was |
| JsonStore.Store.Partialize | src/store/useJsonStore.ts:162-168 | the persisted projection holds exactly the theme, key, preferred model, text and view mode of the store |
| JsonStore.Store.Rehydrate | src/store/useJsonStore.ts:169-178 | the saved fields are restored; a non-empty text is re-parsed so the derived fields agree with it; an empty text leaves the derived fields as they were |

`Rehydrate`'s contract `Partialize() == saved` states that loading restores what was
saved.

## Left out

- Rendering markup, CSS classes, padding, icons and colours (`getTypeColor`) are not
  modelled. The node's output is the record `NodeView` (label, text or preview,
  children, button, comma).
- Numbers are integers. Rendering fractions and exponents with `String`, and the
  point where large integers lose precision, are not modelled.
- `toLowerCase` is modelled for ASCII letters and the Kelvin sign, the one other
  character whose lower case is an ASCII letter. That is enough to compare keys with
  the all-ASCII priority list, but not for general lower-casing.
- `JSON.parse`, `JSON.stringify` and `formatAndSortJSON` are inputs. The source file of
  `formatAndSortJSON` is not part of this model.
- The HTTP requests (URLs, the key in the query string, headers, bodies) and console
  logging are not modelled. The listing and the reply are records whose absent fields
  are empty, and a thrown fetch or body-read error keeps its message.
- `BestModel`'s fallback covers an exception raised while reading the listing through
  `ListUnavailable`. Models with a missing name are not represented.
- The clipboard, `confirm`, toasts and timers are inputs or left out. The copy
  acknowledgement's 1.5-second timer is the separate `CopyAcknowledged` step. The
  toasts of the diff editor are returned as `Notice` values; the store's toasts are
  left out.
- The `data-theme` attribute written to the document by `setTheme` and on rehydration
  is left out.
- The CodeMirror merge view is left out: its mounting, its chunk computation, keeping the
  panes in sync with the buffers, and the scrolling itself. `ScrollToChange` returns
  the chunk that both panes scroll to and whose start becomes the cursor.
- JsonStore.Store.FixJsonWithAI, GenerateWithAI, GenerateSchemaWithAI and
  ExplainJsonWithAI do not model overlapping calls or edits made while a call is
  pending. Each action is one sequential step, and its outcome is computed from the
  text, key and model read at its start.
- JsonStore.Store.Rehydrate does not model persisted data from older versions that lacks
  some fields; the saved record always carries all five.
- The `defaultExpandedDepth` prop is computed by `JsonTree.View` but has no effect,
  because the node never reads it.
- Object keys are not required to be distinct in `JsonValue`. Values produced by
  `JSON.parse` never repeat a key, but the model's lemmas about paths and previews hold
  for any key list, so they need no such assumption.
- Presentation components (toolbar, layout, modals, empty state, mobile navigation,
  diff modal and view, loading overlay), keyboard shortcuts and the feedback form are
  not part of this model.
