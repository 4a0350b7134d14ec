# Quest planner core in Dafny

This project models the core of `srs/quest_generator.py`, a desktop editor for
branching role-playing quests. A quest is a `QuestProject`: metadata
(`QuestMeta`) plus an ordered list of nodes (`Node`). Each node has an id, a title,
free texts, three item lists and a list of options (`Option`: a label and the id
of the node it leads to). The editor saves projects as JSON and exports them as a
single HTML page. On that page every node is a `<section>` whose `id` is the node
id, and every option is a link `#target`.

The model has six modules, one file each:

- `strlib.dfy` (`StrLib`). The Python string operations the program relies on:
  `strip`/`rstrip` over Python's whitespace set, `str.replace` of a single
  character, and `str.join`. It also defines `InOrder`, "these pieces occur in
  this text in this order, without overlapping", which states the layout of the
  rendered HTML.
- `helpers.dfy` (`Helpers`). `sanitize_id`, `html_escape` (with an unescaping
  function as its partner), `lines_to_list` and `list_to_lines`.
- `model.dfy` (`QuestModel`). The four dataclasses, their defaults, node ids,
  and the duplicate-id check of the export.
- `codec.dfy` (`Codec`). `option_to_dict`, `option_from_dict`,
  `project_to_jsonable` and `project_from_jsonable`, over a JSON value type. It
  also covers the start node that loading adds to a project without nodes.
- `renderer.dfy` (`Renderer`). `render_nav` through `render_html`, part for
  part. The version line's clock reading is the parameter `now`. The stylesheet
  and the script are fixed texts. The script is included exactly when
  `include_js` is set.
- `editor.dfy` (`Editor`). The node logic of `QuestEditorApp` as a class
  `QuestEditor`. Its fields are the project's metadata and nodes, the
  selection cursor (`current_node_index`), the node form (what the entry
  fields, text boxes and option table hold) and the metadata form (what the
  metadata entries and text boxes hold). Its methods are:
  - applying the metadata form, and applying the node form to the selected node;
  - selecting, adding, deleting and moving nodes;
  - saving, loading and exporting.

  Each method's `ensures` states the new state in terms of the specification
  functions `ApplyForm`, `Without` and `Swap`. The lemmas beside them prove
  that those operations keep node ids distinct, that the form round-trips a
  normalised node, and that a rejected rename changes nothing.

These behaviours of the code are kept as written:

- **Reserved targets are flagged.** An option whose target is "top" or "end" is
  flagged "unknown target", because only node ids are looked up.
- **The dialog is stripped only when rendered.** The dialog text is stripped at
  render time, although the editor keeps its leading whitespace.
- **Renames do not cascade.** Renaming a node does not update other nodes'
  option targets.
- **A clashing rename aborts the whole apply.** A rename to an id that is
  already taken discards every other edit in the form too.
- **New nodes are appended.** `_add_node` always puts the new node at the end
  of the list (line 716); there is no insertion at a position.
- **Only missing keys get defaults.** Decoding substitutes a default for a
  missing key, and `[]` for a falsy list value. A value of the wrong shape is
  kept, or makes `.get` or iteration raise; see "Left out" for how the model
  treats it.
- **The metadata is read from its widgets only on add, save and export.**
  Deleting, moving and selecting nodes leave `project.meta` alone, and a
  version stamp that is only white space is kept in its entry field when
  shown but stripped to nothing when applied, so the export then stamps the
  page with the export time.

## Model

| member | source | states |
|---|---|---|
| Helpers.SanitizeId | srs/quest_generator.py:56-64 | The result is always a usable HTML id: non-empty, only `a-z0-9-_`, no `--`, no leading or trailing `-`. |
| Helpers.ReplaceNonIdRuns | srs/quest_generator.py:62 | After replacing every run of other characters by `-`, only id characters are left, and the text is empty only if it was empty. |
| Helpers.CollapseDashesSingle | srs/quest_generator.py:63 | After collapsing runs of dashes, no two dashes are adjacent. |
| Helpers.CollapseDashesIdChars | srs/quest_generator.py:63 | Collapsing dashes keeps a text within the id alphabet. |
| Helpers.TrimDashes | srs/quest_generator.py:63 | `strip("-")` leaves no dash at either end, and keeps the id alphabet and the absence of `--`. |
| Helpers.SanitizeIdKeepsCleanIds | srs/quest_generator.py:56-64 | A text that already is a clean id comes back unchanged. |
| Helpers.CleanIdPrepared | srs/quest_generator.py:60-61 | Stripping, lower-casing and transliterating leave a clean id unchanged. |
| Helpers.SanitizeIdIdempotent | srs/quest_generator.py:56-64 | Sanitising an id a second time changes nothing. |
| Helpers.HtmlEscapeCharwise | srs/quest_generator.py:75-78 | The chained replacements escape character by character; because `&` is replaced first, no entity is escaped twice. |
| Helpers.HtmlEscapeAppend | srs/quest_generator.py:75-78 | Escaping distributes over concatenation. |
| Helpers.HtmlEscapeNoAngles | srs/quest_generator.py:75-78 | Escaped text contains no `<` and no `>`, so it cannot open or close a tag. |
| Helpers.EscapedTags | srs/quest_generator.py:75-78 | Escaped text adds no tag (no `<`) to any markup it is put into. |
| Helpers.HtmlEscapePlainText | srs/quest_generator.py:75-78 | Text without `&`, `<`, `>` is left unchanged. |
| Helpers.HtmlEscapeRoundTrip | srs/quest_generator.py:75-78 | Unescaping the escaped text gives the original back, for every text. |
| Helpers.CleanIdNeedsNoEscape | srs/quest_generator.py:75-78 | A sanitised id is its own escape, so an anchor and the links to it agree. |
| Helpers.SplitLines | srs/quest_generator.py:67 | `splitlines` yields pieces without line-break characters. |
| Helpers.LinesToList | srs/quest_generator.py:66-67 | Every item is stripped and non-empty. |
| Helpers.SplitLinesJoin | srs/quest_generator.py:67-70 | Splitting the newline-join of one-line pieces gives the pieces back. This holds for the model's `SplitLines`, which keeps a trailing empty piece; Python's `splitlines` drops it (`"a\n".splitlines() == ["a"]`), which `LinesRoundTrip` does not depend on because its items are non-empty. |
| Helpers.LinesRoundTrip | srs/quest_generator.py:66-70 | `lines_to_list(list_to_lines(xs)) == xs` for every list of stripped, non-empty, one-line items. |
| Helpers.LinesToListStable | srs/quest_generator.py:66-70 | A list that went through the text box once does not change a second time. |
| QuestModel.InIdSet | srs/quest_generator.py:762 | The id set holds exactly the ids of the nodes. |
| QuestModel.SetSizeOfSeq | srs/quest_generator.py:899 | A list has as many distinct values as entries exactly when no value repeats. |
| QuestModel.DuplicateCheckCorrect | srs/quest_generator.py:897-901 | `len(ids) != len(set(ids))` holds exactly when two nodes share an id. |
| Codec.Iterate | srs/quest_generator.py:104 | `for nd in nodes_d` walks a list's items; an empty dict or string walks nothing; a list, an empty dict and an empty string are exactly the values accepted, anything else is an error. |
| Codec.StringField | srs/quest_generator.py:106 | A missing key gives the default. |
| Codec.DecodeStrings | srs/quest_generator.py:111-113 | A list is accepted exactly when all its items are strings, and then keeps them in order. |
| Codec.StringListField | srs/quest_generator.py:111-113 | `nd.get(k, []) or []`: a missing or falsy value gives the empty list. |
| Codec.DecodeOptions | srs/quest_generator.py:115 | Decodes every option in order, and fails exactly when one of them fails. |
| Codec.OptionsField | srs/quest_generator.py:115 | A missing or falsy "options" value gives no options. |
| Codec.DecodeNodes | srs/quest_generator.py:103-117 | Decodes every node in order, and fails exactly when one of them fails. |
| Codec.MetaValues | srs/quest_generator.py:101 | Reads every metadata key with default `""`, in field order. |
| Codec.LoadProject | srs/quest_generator.py:882-884 | Loading succeeds exactly when decoding does, keeps the metadata, and yields at least one node: the decoded list, or the single `start` node when that list is empty. |
| Codec.OptionRoundTrip | srs/quest_generator.py:80-84 | `option_from_dict(option_to_dict(o)) == o`. |
| Codec.OptionsRoundTrip | srs/quest_generator.py:92 | An option list survives encoding and decoding. |
| Codec.NodeRoundTrip | srs/quest_generator.py:89-117 | Every node survives encoding and decoding, field by field. |
| Codec.MetaRoundTrip | srs/quest_generator.py:88-101 | Every metadata record survives encoding and decoding. |
| Codec.NodesRoundTrip | srs/quest_generator.py:89-117 | A node list survives encoding and decoding, in order. |
| Codec.ProjectRoundTrip | srs/quest_generator.py:86-119 | `project_from_jsonable(project_to_jsonable(p)) == p` for every project. |
| Codec.SaveLoadRoundTrip | srs/quest_generator.py:864-884 | Saving a project with at least one node and loading it gives the same project. |
| Codec.MissingNodeKeys | srs/quest_generator.py:104-116 | Each missing node key takes its default: `"node"` for the id, `""` for texts, `[]` for lists and options. |
| Codec.MissingMetaKeys | srs/quest_generator.py:99-101 | Each missing metadata key takes `""`, not the dataclass default. |
| Codec.NoMetaKeys | srs/quest_generator.py:99-101 | Metadata without any known key decodes to all-empty fields. |
| Codec.EmptyMetaDecodes | srs/quest_generator.py:99-101 | An empty metadata object decodes to all-empty fields. |
| Codec.EmptyDocumentDecodes | srs/quest_generator.py:98-119 | An empty document decodes to empty metadata and no nodes. |
| Codec.EmptyDocumentLoads | srs/quest_generator.py:882-884 | An empty document loads as empty metadata plus the single `start` node. |
| Renderer.NavLayout | srs/quest_generator.py:284-290 | The navigation shows the overview link, then one link per node in node order, then closes. |
| Renderer.NavLinkOfCleanId | srs/quest_generator.py:287-288 | A node's link targets its id and shows its escaped title, or its id when the title is empty. |
| Renderer.NavTopLinkFirst | srs/quest_generator.py:285 | The navigation starts with its opening tag and then the overview link, before any node's link. |
| Renderer.LinkTags | srs/quest_generator.py:288 | A link adds exactly its opening and closing tag to the tags of its target and caption. |
| Renderer.NavTags | srs/quest_generator.py:284-290 | The navigation holds the tags of the empty navigation plus exactly two per node (one link each); no node's id or title adds markup. |
| Renderer.MetaListLayout | srs/quest_generator.py:292-305 | Six items in fixed order, from quest giver to important flags; a blank value shows `—`, any other value is shown stripped. |
| Renderer.MetaItemTags | srs/quest_generator.py:302-303 | An item holds the same tags whatever its key and value. |
| Renderer.MetaListTags | srs/quest_generator.py:292-305 | The list holds six times the tags of one item, whatever the metadata says: no value adds markup. |
| Renderer.OptionFlagged | srs/quest_generator.py:313-317 | An option carries the unknown-target marker exactly when its stripped target is not a node id; this includes "top" and "end". |
| Renderer.OptionHref | srs/quest_generator.py:311-318 | An option links to its stripped, escaped target, and to `#top` when that target is blank and no node has the empty id. |
| Renderer.OptionLabelFallback | srs/quest_generator.py:312 | The caption is the stripped label, and "Option" exactly when that is blank; never empty. |
| Renderer.OptionsLayout | srs/quest_generator.py:307-320 | The "no options" placeholder appears exactly when the node has no options; otherwise a heading and an ordered list with one item per option, in order. |
| Renderer.OptionItemTags | srs/quest_generator.py:311-318 | An option item holds four tags (its `<li>` pair and its link), plus the marker's when its stripped target is not a node id; label and target add none. |
| Renderer.OptionItemsTags | srs/quest_generator.py:310-318 | The items together hold four tags per option plus the marker's for each option with an unknown target. |
| Renderer.OptionsTags | srs/quest_generator.py:307-320 | Beyond the heading and the list tags, the option list holds only its items' tags. |
| Renderer.ListBlocksEmpty | srs/quest_generator.py:322-344 | Both list renderings are empty exactly when there are no items. |
| Renderer.ListBlocks | srs/quest_generator.py:322-344 | Both list renderings show one escaped `<li>` per item, in item order. |
| Renderer.ListItemTags | srs/quest_generator.py:325 | A list item holds its `<li>` pair and nothing else, whatever the item says. |
| Renderer.ListBlockTags | srs/quest_generator.py:322-332 | No items, no markup; otherwise the tags of a one-item list plus two per further item, whatever the title and items say. |
| Renderer.DetailsTags | srs/quest_generator.py:334-344 | The same for the collapsible list. |
| Renderer.CandidateRanks | srs/quest_generator.py:355-385 | The eight optional parts of a section are considered in a fixed order: scene, content, dialog, information, flags, outcomes, options, notes. |
| Renderer.SectionBlocksOrdered | srs/quest_generator.py:355-385 | A section shows only parts it has something for, each at most once, in that fixed order. |
| Renderer.SectionBlocksComplete | srs/quest_generator.py:355-385 | A section leaves out no part that it has something for. |
| Renderer.OptionsAlwaysShown | srs/quest_generator.py:382 | Every section shows its option list, including the placeholder when it has none. |
| Renderer.ListBlockShown | srs/quest_generator.py:369-379 | A list block is shown exactly when its rendering is non-empty. |
| Renderer.CandidateFlags | srs/quest_generator.py:369-379 | A list block is shown exactly when its list has items. |
| Renderer.SectionLayout | srs/quest_generator.py:346-389 | A section opens with its anchor and heading, shows its parts in order, and ends with the link back to the overview. |
| Renderer.SectionHeadTags | srs/quest_generator.py:347-353 | The anchor and the heading hold the same tags for every node. |
| Renderer.SectionTags | srs/quest_generator.py:346-389 | A section holds the tags of a section without parts plus those of its parts, and nothing else. |
| Renderer.BlockTags | srs/quest_generator.py:355-385 | A part's tags depend only on its kind, its number of items and (for the option list) its markup, never on its text. |
| Renderer.ScriptOnlyWhenAsked | srs/quest_generator.py:451 | The page with the script is the page without it plus the script block inserted at one place; nothing else differs. |
| Renderer.StampedPageIgnoresClock | srs/quest_generator.py:399 | With a non-blank version stamp, the page does not depend on the clock. |
| Renderer.PageLayout | srs/quest_generator.py:391-456 | The page shows, in order: the overview link and one navigation link per node, the overview with its link to the first node (or `#top` without nodes), one section per node in node order, the closing section, and the version line. |
| Editor.RowsOptions | srs/quest_generator.py:780-784 | One option per table row, in order. |
| Editor.RowsOptionsAt | srs/quest_generator.py:780-784 | The option at each position is that row read back: label stripped, target sanitised. |
| Editor.RowsOptionsClean | srs/quest_generator.py:780-784 | Every option read from the table has a stripped label and a clean-id target. |
| Editor.FormNode | srs/quest_generator.py:757-777 | The node built from the form carries the sanitised id entry. |
| Editor.FormNodeNormalized | srs/quest_generator.py:769-784 | A node written from the form is normalised: clean id, non-empty stripped title, stripped texts, dialog without trailing whitespace, stripped non-empty list items, clean option targets. |
| Editor.FormRoundTrip | srs/quest_generator.py:677-784 | Showing a node in the form and applying the form gives the same node back exactly when the node is normalised. |
| Editor.FormNodeStable | srs/quest_generator.py:677-784 | Applying, showing and applying again gives the same node as applying once. |
| Editor.NormalizedStable | srs/quest_generator.py:677-784 | A normalised node survives being shown and applied unchanged. |
| Editor.OptionRowsRoundTrip | srs/quest_generator.py:795-798 | Normalised options survive being put into the table and read back. |
| Editor.ApplyOutcome | srs/quest_generator.py:752-786 | The node gets the form's id exactly when that id is its own or unused. If it does, the node is normalised; if not, nothing changes. No other node ever changes. |
| Editor.ApplyAccepted | srs/quest_generator.py:769-784 | A form whose id is the node's own always replaces the node with the form's node. |
| Editor.ApplyKeepsIdsDistinct | srs/quest_generator.py:761-767 | Applying the form never creates a duplicate id. |
| Editor.ApplyAtKeepsIdsDistinct | srs/quest_generator.py:753-754 | Without a selection nothing changes; in every case distinct ids stay distinct. |
| Editor.ApplyAtElsewhere | srs/quest_generator.py:752-786 | Nodes other than the selected one are untouched. |
| Editor.LongIdIsFree | srs/quest_generator.py:709-713 | Some `knoten-i` is always free, so the id search ends. |
| Editor.FreshNodeIndex | srs/quest_generator.py:707-713 | Returns the smallest `i >= 1` whose `knoten-i` is unused. |
| Editor.AddKeepsIdsDistinct | srs/quest_generator.py:715-716 | Appending the new node keeps ids distinct. |
| Editor.Without | srs/quest_generator.py:732 | Deleting position `idx` keeps the order of the others and removes exactly that node. |
| Editor.DeleteKeepsIdsDistinct | srs/quest_generator.py:732 | Deleting keeps ids distinct. |
| Editor.Swap | srs/quest_generator.py:747 | Exchanges two positions, keeps all others, and is a permutation. |
| Editor.SwapKeepsIdsDistinct | srs/quest_generator.py:747 | Swapping keeps ids distinct. |
| Editor.MetaFormOf | srs/quest_generator.py:637-649 | The metadata widgets show every field as it is, and the clock reading instead of an empty version stamp. |
| Editor.StripMeta | srs/quest_generator.py:651-662 | Applying the metadata widgets leaves every field stripped. |
| Editor.StripMetaIdempotent | srs/quest_generator.py:651-662 | Applying the metadata widgets twice is the same as applying them once. |
| Editor.MetaFormRoundTrip | srs/quest_generator.py:637-662 | Stripped metadata with a version stamp comes back unchanged when shown and applied, so loading and saving keeps it. |
| Editor.ExportedVersion | srs/quest_generator.py:637-662 | A page exported right after loading shows the file's stamp if it is not blank, the load time if the file has none, and the export time only for a stamp of white space. |
| Editor.QuestEditor.constructor | srs/quest_generator.py:464-479 | Starts with default metadata (shown in the metadata widgets with the clock reading as version) and the single node `start`, selected and shown in the form. |
| Editor.QuestEditor.ApplyMeta | srs/quest_generator.py:651-662 | The metadata becomes the stripped widget contents; nothing else changes. |
| Editor.QuestEditor.ApplyWidgets | srs/quest_generator.py:701-704 | Applies the metadata widgets, then the node form; distinct ids stay distinct. |
| Editor.QuestEditor.ApplyCurrentNode | srs/quest_generator.py:752-786 | The new node list and form are those of `ApplyAt` on the old state; cursor, metadata and metadata widgets are unchanged. |
| Editor.QuestEditor.ReadOptions | srs/quest_generator.py:780-784 | The loop reads the table into `RowsOptions(rows)`, all normalised. |
| Editor.QuestEditor.Select | srs/quest_generator.py:677-699 | Applies the form to the previous selection, then selects `idx` and shows that node in the form. |
| Editor.QuestEditor.AddNode | srs/quest_generator.py:701-718 | After the metadata widgets and the form are applied, appends `knoten-i` (the smallest unused `i`, titled `Knoten i`, one option to "end"), selects it, and keeps ids distinct. |
| Editor.QuestEditor.DeleteNode | srs/quest_generator.py:720-735 | Does nothing without a selection, with a single node, or without confirmation. Otherwise removes the selected node and selects the previous one (or the first). |
| Editor.QuestEditor.MoveNode | srs/quest_generator.py:737-749 | Does nothing without a selection or past either end. Otherwise applies the form, swaps with the neighbour (a permutation), and selects the moved node at its new position. |
| Editor.QuestEditor.Save | srs/quest_generator.py:852-864 | Applies the metadata widgets and the form, then produces the document from which `LoadProject` returns the current project. |
| Editor.QuestEditor.Load | srs/quest_generator.py:872-890 | A document that decodes replaces metadata and nodes with `LoadProject`'s result, shows the metadata in its widgets (stamped with the clock reading when it has no version) and selects the first node. Any other document changes nothing. |
| Editor.QuestEditor.Install | srs/quest_generator.py:879-887 | Installs a project with at least one node, shows its metadata and selects its first node without applying the old form (the corrected behaviour; see Findings). |
| Editor.QuestEditor.Export | srs/quest_generator.py:893-911 | Applies the metadata widgets and the form. Refuses exactly when two nodes share an id, which never happens if ids were distinct before. Otherwise returns `render_html` with the script. |
| Editor.QuestEditor.ExportPage | srs/quest_generator.py:897-911 | Refuses exactly when two nodes share an id; otherwise the page is `render_html` with the script. |
| Editor.MoveOverwritesNeighbour | srs/quest_generator.py:737-749 | As written: moving a node whose id sanitises to its neighbour's writes the form over that neighbour, so the move is no longer a reordering. |
| Editor.SanitizeUpperX | srs/quest_generator.py:60 | `sanitize_id("X") == "x"`, so "X" and "x" meet that condition. |
| Editor.LoadOverwritesLoadedNode | srs/quest_generator.py:872-887 | As written: when the loaded first node has the id of the node shown before loading, the loaded node is replaced by the shown one. |
| Editor.StartNodeNormalized | srs/quest_generator.py:472 | The start node is normalised, so the start state meets that condition. |

## Left out

- The Tk widgets and their event handlers are not modelled. This covers `_build_ui`, `_refresh_node_list`, `_on_node_select` and `_reload_options_tree`, and also `_id_from_title`, `_add_option`, `_remove_option` and `_edit_option`, which only edit widget contents. The `form` and `metaForm` fields stand for all widget contents, and table rows arrive through `form.rows`. A widget gives back exactly the text it was set to.
- Message boxes, the `silent` flag and the yes/no question are not modelled. The question's answer is the `confirmed` parameter, and the boxes become outcome values.
- File dialogs, file I/O and JSON text encoding are not modelled. The codec works on a JSON value; a cancelled dialog is not modelled.
- `now_stamp` reads the clock. It becomes the parameter `now`.
- `CSS_BLOCK` and `JS_BLOCK` are placeholders. Their contents have no logic the page depends on; only whether the script is present is modelled.
- Unicode is covered only in part. The whitespace and line-break sets are Python's, as listed in `StrLib`. `lower()` covers ASCII plus Ä, Ö, Ü and ẞ, the letters `sanitize_id` transliterates; other letters keep their case.
- JSON numbers are integers only; floats are not modelled.
- Codec.StringField: a non-string value in one of the text fields (`node_id`, `title`, `scene`, `dialog`, `content`, `notes`, an option's `label` or `target`, or a metadata key) makes the model reject the whole document (`WrongType`). The program accepts such a document and keeps the value as it is. Metadata values are shown in their widgets on loading and come back as text when applied, which saving and exporting always do first. A node's text values become text once the node has been shown and the form applied; rendering a node that was never shown fails in `.strip()` or `html_escape`. `Codec.DecodeNode` and `Codec.DecodeMeta` inherit this.
- Codec.StringListField and Codec.DecodeStrings: in the list fields `info_items`, `tech_flags` and `outcomes`, a truthy value that is not a list, or a list with a non-string item, makes the model reject the whole document (`WrongType`). The program keeps such a value as it is, with one outcome per case:
  - A list with a non-string item, such as `[1, 2]`, cannot be shown. `list_to_lines` raises `TypeError` in `_select_node`, and rendering fails in `html_escape`. If the node is the first of a loaded file, loading fails only after `self.project` and the metadata widgets were already replaced. The model's `Load` leaves the state unchanged for such a document.
  - A truthy string such as `"abc"`, or a dict, is shown and rendered one character, or one key, per line and per `<li>`. The first apply of the form turns it into that list of lines.
  - A non-zero number cannot be shown or rendered: iterating it raises `TypeError`.
- Helpers.SplitLines: differs from Python's `splitlines` in three ways, each adding only empty lines. `\r\n` counts as two breaks and yields an extra empty line. An empty text gives `[""]`, where Python gives `[]`. A text ending in a break gives a final `""`, which Python does not. `lines_to_list` drops empty lines, so its result is the same.
- Editor.QuestEditor.Load and Editor.QuestEditor.Install: the model follows the corrected behaviour (see Findings). The as-written behaviour is modelled separately by `LoadAsWritten`.
- Editor.QuestEditor.MoveNode: the model follows the corrected behaviour (see Findings). The as-written behaviour is modelled separately by `MoveAsWritten`.

## Findings

| source | as written | input that shows it | evidently intended | confidence | as-written member | corrected member |
|---|---|---|---|---|---|---|
| srs/quest_generator.py:872-887 | `_load_project` replaces the project but keeps `current_node_index`. `_select_node(0)` therefore first applies the form still showing the old node to the loaded node at the old index; past the end, it raises `IndexError` after the project was already replaced. | Start state (node `start` shown); load a file whose single node has id `start` and other content: the loaded node's content is replaced by the form's. | Clear the cursor before selecting, as `_delete_node` does at line 733. | not executed; shown by proof | Editor.LoadOverwritesLoadedNode | Editor.QuestEditor.Load |
| srs/quest_generator.py:737-749 | `_move_node` applies the form, swaps, then calls `_select_node(new_idx)` without clearing the cursor. The form is applied a second time, to the node that now sits at the old index. | Nodes with ids `X` (selected, form unchanged) and `x`, moved down. The first apply refuses the rename to `x`; the second accepts it at the old index, so node `x` is overwritten by a copy of `X`'s content. | Clear the cursor before selecting the moved node, so the node list is only permuted. | not executed; shown by proof | Editor.MoveOverwritesNeighbour | Editor.QuestEditor.MoveNode |
