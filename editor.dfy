/**
 * The node-list logic of the editor window `QuestEditorApp`: the node form
 * (what its entry fields, text boxes and option table hold), applying that
 * form to the selected node, selecting, adding, deleting and moving nodes, and
 * the save, load and export steps around the codec and the renderer. Widget
 * reads and writes become the `form` field; the answers of dialogs become
 * parameters, and the message boxes become outcomes.
 */
module Editor {
  import opened StrLib
  import opened Helpers
  import opened QuestModel
  import Codec
  import Renderer

  /** `current_node_index`: no node selected, or the index of the selected one. */
  datatype Cursor = NoSelection | At(index: nat)

  /** One row of the options table: its label and target cells. */
  datatype OptionRow = OptionRow(labelText: string, target: string)

  /** What the node widgets hold: the id and title entries, the text boxes
      (lists one item per line) and the rows of the options table. */
  datatype NodeForm = NodeForm(
    idText: string,
    titleText: string,
    sceneText: string,
    dialogText: string,
    contentText: string,
    infoText: string,
    techText: string,
    outcomesText: string,
    notesText: string,
    rows: seq<OptionRow>)

  /** The widgets of a window that has not shown a node yet. */
  function BlankForm(): NodeForm {
    NodeForm("", "", "", "", "", "", "", "", "", [])
  }

  // ------------------------------------------------------------ the node form

  function OptionRows(os: seq<Option>): seq<OptionRow> {
    seq(|os|, k requires 0 <= k < |os| => OptionRow(os[k].labelText, os[k].target))
  }

  /** What `_select_node` writes into the widgets for node `n`. */
  function FormOf(n: Node): NodeForm {
    NodeForm(n.nodeId, n.title, n.scene, n.dialog, n.content,
      ListToLines(n.infoItems), ListToLines(n.techFlags), ListToLines(n.outcomes),
      n.notes, OptionRows(n.options))
  }

  /** An option as `_apply_current_node` reads it from a row: the label
      stripped and the target sanitised into a clean id. */
  function RowOption(row: OptionRow): Option
  {
    Option(Strip(row.labelText), SanitizeId(Strip(row.target)))
  }

  /** The options read from the table, row by row. */
  function RowsOptions(rows: seq<OptionRow>): (os: seq<Option>)
    ensures |os| == |rows|
  {
    if rows == [] then [] else RowsOptions(rows[..|rows| - 1]) + [RowOption(rows[|rows| - 1])]
  }

  /** The option at `k` is read from the row at `k`. */
  lemma {:induction false} RowsOptionsAt(rows: seq<OptionRow>, k: nat)
    requires k < |rows|
    ensures RowsOptions(rows)[k] == RowOption(rows[k])
  {
    if k < |rows| - 1 {
      RowsOptionsAt(rows[..|rows| - 1], k);
    }
  }

  lemma RowOptionClean(row: OptionRow)
    ensures IsStripped(RowOption(row).labelText) && IsCleanId(RowOption(row).target)
  {
    StripCharacterization(row.labelText);
  }

  /** Options as reading the table gives them: labels stripped, targets clean ids. */
  ghost predicate OptionsNormalized(os: seq<Option>) {
    (forall k :: 0 <= k < |os| ==> IsStripped(os[k].labelText))
    && (forall k :: 0 <= k < |os| ==> IsCleanId(os[k].target))
  }

  /** Every option read from the table has a stripped label and a clean target. */
  lemma RowsOptionsClean(rows: seq<OptionRow>)
    ensures OptionsNormalized(RowsOptions(rows))
  {
    var os := RowsOptions(rows);
    forall k | 0 <= k < |os|
      ensures IsStripped(os[k].labelText)
    {
      RowsOptionsAt(rows, k);
      RowOptionClean(rows[k]);
    }
    forall k | 0 <= k < |os|
      ensures IsCleanId(os[k].target)
    {
      RowsOptionsAt(rows, k);
      RowOptionClean(rows[k]);
    }
  }

  /** A node in the shape that applying a form gives it. */
  ghost predicate Normalized(n: Node) {
    IsCleanId(n.nodeId) && n.title != [] && IsStripped(n.title)
    && IsStripped(n.scene) && (n.dialog == [] || !IsSpace(n.dialog[|n.dialog| - 1]))
    && IsStripped(n.content) && IsStripped(n.notes)
    && (forall k :: 0 <= k < |n.infoItems| ==> IsListItem(n.infoItems[k]))
    && (forall k :: 0 <= k < |n.techFlags| ==> IsListItem(n.techFlags[k]))
    && (forall k :: 0 <= k < |n.outcomes| ==> IsListItem(n.outcomes[k]))
    && OptionsNormalized(n.options)
  }

  lemma CleanIdIsStripped(s: string)
    requires IsCleanId(s)
    ensures IsStripped(s) && s != []
  {
    assert IsIdChar(s[0]) && IsIdChar(s[|s| - 1]);
  }

  /** `text.strip()` of a text box. */
  function StripText(s: string): (r: string)
    ensures IsStripped(r)
  {
    StripCharacterization(s);
    Strip(s)
  }

  /** `title.strip() or node_id`, with the node's new id. */
  function FormTitle(titleText: string, id: string): (t: string)
    requires IsCleanId(id)
    ensures t != [] && IsStripped(t)
  {
    CleanIdIsStripped(id);
    var title := StripText(titleText);
    if title != [] then title else id
  }

  /** `dialog.rstrip()`: the dialog keeps its leading whitespace. */
  function DialogText(s: string): (r: string)
    ensures r == [] || !IsSpace(r[|r| - 1])
  {
    RStrip(s)
  }

  /** The node a form describes, once its rename is accepted: the id
      sanitised, the title stripped or else the new id, the dialog only
      right-stripped, the other texts stripped, the lists read line by line
      and the options read row by row. */
  function FormNode(f: NodeForm): (n: Node)
    ensures n.nodeId == SanitizeId(f.idText)
  {
    var id := SanitizeId(f.idText);
    Node(id, FormTitle(f.titleText, id), StripText(f.sceneText), DialogText(f.dialogText),
      StripText(f.contentText), LinesToList(f.infoText), LinesToList(f.techText),
      LinesToList(f.outcomesText), StripText(f.notesText), RowsOptions(f.rows))
  }

  /** Whatever the form holds, applying it gives a normalised node. */
  lemma FormNodeNormalized(f: NodeForm)
    ensures Normalized(FormNode(f))
  {
    FormNodeTexts(f);
    FormNodeLists(f);
    FormNodeOptions(f);
  }

  lemma FormNodeOptions(f: NodeForm)
    ensures OptionsNormalized(FormNode(f).options)
  {
    RowsOptionsClean(f.rows);
  }

  lemma FormNodeTexts(f: NodeForm)
    ensures var n := FormNode(f);
      IsCleanId(n.nodeId) && n.title != [] && IsStripped(n.title)
      && IsStripped(n.scene) && (n.dialog == [] || !IsSpace(n.dialog[|n.dialog| - 1]))
      && IsStripped(n.content) && IsStripped(n.notes)
  {
    FormNodeHeading(f);
    FormNodeDialog(f);
  }

  lemma FormNodeHeading(f: NodeForm)
    ensures var n := FormNode(f);
      IsCleanId(n.nodeId) && n.title != [] && IsStripped(n.title)
  {
  }

  lemma FormNodeDialog(f: NodeForm)
    ensures var n := FormNode(f);
      n.dialog == [] || !IsSpace(n.dialog[|n.dialog| - 1])
  {
  }

  lemma FormNodeLists(f: NodeForm)
    ensures var n := FormNode(f);
      (forall k :: 0 <= k < |n.infoItems| ==> IsListItem(n.infoItems[k]))
      && (forall k :: 0 <= k < |n.techFlags| ==> IsListItem(n.techFlags[k]))
      && (forall k :: 0 <= k < |n.outcomes| ==> IsListItem(n.outcomes[k]))
  {
  }

  /** A row showing a normalised option reads back as that option. */
  lemma RowOptionRoundTrip(o: Option)
    requires IsStripped(o.labelText) && IsCleanId(o.target)
    ensures RowOption(OptionRow(o.labelText, o.target)) == o
  {
    StripCharacterization(o.labelText);
    CleanIdIsStripped(o.target);
    StripCharacterization(o.target);
    SanitizeIdKeepsCleanIds(o.target);
  }

  /** The table showing normalised options reads back as those options. */
  lemma OptionRowsRoundTrip(os: seq<Option>)
    requires OptionsNormalized(os)
    ensures RowsOptions(OptionRows(os)) == os
  {
    var rows := OptionRows(os);
    var r := RowsOptions(rows);
    forall k | 0 <= k < |os|
      ensures r[k] == os[k]
    {
      RowsOptionsAt(rows, k);
      assert rows[k] == OptionRow(os[k].labelText, os[k].target);
      RowOptionRoundTrip(os[k]);
    }
  }

  /** Showing a normalised node in the form and applying the untouched form
      gives the node back; for any other node it does not, since the result
      is always normalised. */
  lemma FormRoundTrip(n: Node)
    ensures FormNode(FormOf(n)) == n <==> Normalized(n)
  {
    FormNodeNormalized(FormOf(n));
    if Normalized(n) {
      var m := FormNode(FormOf(n));
      RoundTripHeading(n);
      RoundTripTexts(n);
      RoundTripLists(n);
      OptionRowsRoundTrip(n.options);
      assert m.options == n.options;
    }
  }

  lemma RoundTripHeading(n: Node)
    requires IsCleanId(n.nodeId) && n.title != [] && IsStripped(n.title)
    ensures FormNode(FormOf(n)).nodeId == n.nodeId && FormNode(FormOf(n)).title == n.title
  {
    SanitizeIdKeepsCleanIds(n.nodeId);
    StripCharacterization(n.title);
  }

  lemma RoundTripTexts(n: Node)
    requires IsStripped(n.scene) && (n.dialog == [] || !IsSpace(n.dialog[|n.dialog| - 1]))
    requires IsStripped(n.content) && IsStripped(n.notes)
    ensures var m := FormNode(FormOf(n));
      m.scene == n.scene && m.dialog == n.dialog && m.content == n.content && m.notes == n.notes
  {
    StripCharacterization(n.scene);
    StripCharacterization(n.content);
    StripCharacterization(n.notes);
  }

  lemma RoundTripLists(n: Node)
    requires forall k :: 0 <= k < |n.infoItems| ==> IsListItem(n.infoItems[k])
    requires forall k :: 0 <= k < |n.techFlags| ==> IsListItem(n.techFlags[k])
    requires forall k :: 0 <= k < |n.outcomes| ==> IsListItem(n.outcomes[k])
    ensures var m := FormNode(FormOf(n));
      m.infoItems == n.infoItems && m.techFlags == n.techFlags && m.outcomes == n.outcomes
  {
    LinesRoundTrip(n.infoItems);
    LinesRoundTrip(n.techFlags);
    LinesRoundTrip(n.outcomes);
  }

  /** Applying a form, showing the result and applying again changes nothing more. */
  lemma FormNodeStable(f: NodeForm)
    ensures FormNode(FormOf(FormNode(f))) == FormNode(f)
  {
    FormNodeNormalized(f);
    NormalizedStable(FormNode(f));
  }

  lemma NormalizedStable(n: Node)
    requires Normalized(n)
    ensures FormNode(FormOf(n)) == n
  {
    FormRoundTrip(n);
  }

  // ------------------------------------------------------ applying the form

  /** Another node already carries `id`, so renaming the node at `idx` to it is refused. */
  predicate Clash(nodes: seq<Node>, idx: nat, id: string)
    requires idx < |nodes|
  {
    id != nodes[idx].nodeId && id in IdSet(nodes)
  }

  /** The node list and the form after `_apply_current_node`. */
  datatype Applied = Applied(nodes: seq<Node>, form: NodeForm)

  /** `_apply_current_node` on the node at `idx`: a refused rename writes
      nothing and puts the node's id back into the id entry; otherwise the
      node becomes the node the form describes. */
  function ApplyForm(nodes: seq<Node>, idx: nat, f: NodeForm): Applied
    requires idx < |nodes|
  {
    if Clash(nodes, idx, SanitizeId(f.idText)) then Applied(nodes, f.(idText := nodes[idx].nodeId))
    else Applied(nodes[idx := FormNode(f)], f)
  }

  /** Applying with a cursor: nothing happens when no node is selected. */
  function ApplyAt(nodes: seq<Node>, cursor: Cursor, f: NodeForm): Applied
    requires cursor.At? ==> cursor.index < |nodes|
  {
    if cursor.At? then ApplyForm(nodes, cursor.index, f) else Applied(nodes, f)
  }

  /** The node takes the sanitised id exactly when no other node has it; a
      refused rename leaves every node as it was; the other nodes, their
      option targets included, are never touched (a rename does not cascade);
      the applied node is normalised unless the rename was refused. */
  lemma ApplyOutcome(nodes: seq<Node>, idx: nat, f: NodeForm)
    requires idx < |nodes|
    ensures var r := ApplyForm(nodes, idx, f).nodes;
      var id := SanitizeId(f.idText);
      |r| == |nodes|
      && (r[idx].nodeId == id <==> !(id in IdSet(nodes) && id != nodes[idx].nodeId))
      && (r[idx].nodeId == id ==> Normalized(r[idx]))
      && (r[idx].nodeId != id ==> r == nodes)
      && (forall j :: 0 <= j < |nodes| && j != idx ==> r[j] == nodes[j])
  {
    var id := SanitizeId(f.idText);
    if !Clash(nodes, idx, id) {
      FormNodeNormalized(f);
      assert ApplyForm(nodes, idx, f).nodes[idx] == FormNode(f);
    }
  }

  /** Applying the form never makes two nodes share an id. */
  lemma ApplyKeepsIdsDistinct(nodes: seq<Node>, idx: nat, f: NodeForm)
    requires idx < |nodes| && IdsDistinct(nodes)
    ensures IdsDistinct(ApplyForm(nodes, idx, f).nodes)
  {
    var id := SanitizeId(f.idText);
    var r := ApplyForm(nodes, idx, f).nodes;
    if !Clash(nodes, idx, id) && id != nodes[idx].nodeId {
      InIdSet(nodes, id);
      forall i, j | 0 <= i < j < |r|
        ensures r[i].nodeId != r[j].nodeId
      {
        if i != idx && j != idx {
          assert r[i] == nodes[i] && r[j] == nodes[j];
        }
      }
    }
  }

  lemma ApplyAtKeepsIdsDistinct(nodes: seq<Node>, cursor: Cursor, f: NodeForm, r: seq<Node>)
    requires cursor.At? ==> cursor.index < |nodes|
    requires r == ApplyAt(nodes, cursor, f).nodes
    ensures IdsDistinct(nodes) ==> IdsDistinct(r)
    ensures |r| == |nodes|
    ensures cursor.NoSelection? ==> r == nodes
  {
    if cursor.At? && IdsDistinct(nodes) {
      ApplyKeepsIdsDistinct(nodes, cursor.index, f);
    }
  }

  /** Applying the form changes no node but the selected one. */
  lemma ApplyAtElsewhere(nodes: seq<Node>, cursor: Cursor, f: NodeForm, r: seq<Node>, j: nat)
    requires cursor.At? ==> cursor.index < |nodes|
    requires r == ApplyAt(nodes, cursor, f).nodes
    requires j < |nodes| && (cursor.At? ==> cursor.index != j)
    ensures |r| == |nodes| && r[j] == nodes[j]
  {
  }

  // -------------------------------------------------------- fresh node ids

  function Digit(d: nat): char
    requires d < 10
  {
    "0123456789"[d]
  }

  /** `str(n)`: the decimal digits of `n`. */
  function NatToString(n: nat): (s: string)
    ensures |s| >= 1
  {
    if n < 10 then [Digit(n)] else NatToString(n / 10) + [Digit(n % 10)]
  }

  function Pow10(k: nat): (p: nat)
    ensures p >= 1
  {
    if k == 0 then 1 else 10 * Pow10(k - 1)
  }

  /** 10^k has k + 1 digits. */
  lemma {:induction false} Pow10Digits(k: nat)
    ensures |NatToString(Pow10(k))| == k + 1
  {
    if k > 0 {
      Pow10Digits(k - 1);
      var p := Pow10(k - 1);
      assert (10 * p) / 10 == p && (10 * p) % 10 == 0;
    }
  }

  /** `f"knoten-{i}"` */
  function KnotenId(i: nat): string {
    "knoten-" + NatToString(i)
  }

  /** The node `_add_node` appends: `knoten-i`, titled `Knoten i`, with one
      option "Weiter" leading to the end section. */
  function AddedNode(i: nat): Node {
    Node(KnotenId(i), "Knoten " + NatToString(i), "", "", "", [], [], [], "", [Option("Weiter", "end")])
  }

  /** `i` is the smallest number from 1 whose `knoten-i` id is not taken. */
  ghost predicate IsFreshIndex(existing: set<string>, i: nat) {
    i >= 1 && KnotenId(i) !in existing && forall j :: 1 <= j < i ==> KnotenId(j) in existing
  }

  /** The length of the longest node id. */
  function MaxIdLength(nodes: seq<Node>): (m: nat)
    ensures forall j :: 0 <= j < |nodes| ==> |nodes[j].nodeId| <= m
  {
    if nodes == [] then 0
    else
      var rest := MaxIdLength(nodes[1..]);
      if |nodes[0].nodeId| > rest then |nodes[0].nodeId| else rest
  }

  /** A `knoten-` id longer than every node id is free. */
  lemma LongIdIsFree(nodes: seq<Node>)
    ensures KnotenId(Pow10(MaxIdLength(nodes))) !in IdSet(nodes)
  {
    var x := KnotenId(Pow10(MaxIdLength(nodes)));
    Pow10Digits(MaxIdLength(nodes));
    InIdSet(nodes, x);
  }

  /** The id search of `_add_node`: counts `i` up from 1 until `knoten-i` is
      not taken. The search stops at the latest once the number has more
      digits than the longest id has characters. */
  method FreshNodeIndex(nodes: seq<Node>) returns (i: nat)
    ensures IsFreshIndex(IdSet(nodes), i)
  {
    var existing := IdSet(nodes);
    i := 1;
    var newId := KnotenId(i);
    ghost var bound := Pow10(MaxIdLength(nodes));
    LongIdIsFree(nodes);
    while newId in existing
      invariant 1 <= i <= bound
      invariant newId == KnotenId(i)
      invariant forall j :: 1 <= j < i ==> KnotenId(j) in existing
      decreases bound - i
    {
      i := i + 1;
      newId := KnotenId(i);
    }
  }

  /** Appending the node with a fresh id keeps the ids distinct. */
  lemma AddKeepsIdsDistinct(nodes: seq<Node>, i: nat)
    requires IsFreshIndex(IdSet(nodes), i)
    ensures IdsDistinct(nodes) ==> IdsDistinct(nodes + [AddedNode(i)])
  {
    if !IdsDistinct(nodes) {
      return;
    }
    InIdSet(nodes, KnotenId(i));
    var r := nodes + [AddedNode(i)];
    forall a, b | 0 <= a < b < |r|
      ensures r[a].nodeId != r[b].nodeId
    {
      if b < |nodes| {
        assert r[a] == nodes[a] && r[b] == nodes[b];
      } else {
        assert r[a] == nodes[a];
      }
    }
  }

  // ------------------------------------------------- deleting and moving

  /** `del nodes[idx]`: the node at `idx` goes, the others keep their order. */
  function Without(nodes: seq<Node>, idx: nat): (r: seq<Node>)
    requires idx < |nodes|
    ensures |r| == |nodes| - 1
    ensures forall j :: 0 <= j < idx ==> r[j] == nodes[j]
    ensures forall j :: idx <= j < |r| ==> r[j] == nodes[j + 1]
    ensures multiset(r) + multiset{nodes[idx]} == multiset(nodes)
  {
    assert nodes == nodes[..idx] + [nodes[idx]] + nodes[idx + 1..];
    nodes[..idx] + nodes[idx + 1..]
  }

  lemma DeleteKeepsIdsDistinct(nodes: seq<Node>, idx: nat)
    requires idx < |nodes| && IdsDistinct(nodes)
    ensures IdsDistinct(Without(nodes, idx))
  {
    var r := Without(nodes, idx);
    forall a, b | 0 <= a < b < |r|
      ensures r[a].nodeId != r[b].nodeId
    {
      var a' := if a < idx then a else a + 1;
      var b' := if b < idx then b else b + 1;
      assert r[a] == nodes[a'] && r[b] == nodes[b'];
    }
  }

  /** The parallel assignment swapping the entries at `i` and `j`. */
  function Swap(nodes: seq<Node>, i: nat, j: nat): (r: seq<Node>)
    requires i < |nodes| && j < |nodes|
    ensures |r| == |nodes| && r[i] == nodes[j] && r[j] == nodes[i]
    ensures forall k :: 0 <= k < |nodes| && k != i && k != j ==> r[k] == nodes[k]
    ensures multiset(r) == multiset(nodes)
  {
    nodes[i := nodes[j]][j := nodes[i]]
  }

  lemma SwapKeepsIdsDistinct(nodes: seq<Node>, i: nat, j: nat)
    requires i < |nodes| && j < |nodes|
    ensures IdsDistinct(nodes) ==> IdsDistinct(Swap(nodes, i, j))
  {
    if !IdsDistinct(nodes) {
      return;
    }
    var r := Swap(nodes, i, j);
    forall a, b | 0 <= a < b < |r|
      ensures r[a].nodeId != r[b].nodeId
    {
      var a' := if a == i then j else if a == j then i else a;
      var b' := if b == i then j else if b == j then i else b;
      assert r[a] == nodes[a'] && r[b] == nodes[b'];
    }
  }

  /** `_move_node` as written: apply the form, swap, then `_select_node`
      applies the form a second time to the position the cursor still points
      at, which now holds the other node. */
  function MoveAsWritten(nodes: seq<Node>, idx: nat, f: NodeForm, direction: int): seq<Node>
    requires idx < |nodes|
  {
    var newIdx := idx + direction;
    if newIdx < 0 || newIdx >= |nodes| then nodes
    else
      var first := ApplyForm(nodes, idx, f);
      var swapped := Swap(first.nodes, idx, newIdx);
      ApplyForm(swapped, idx, first.form).nodes
  }

  /** Moving node `a` down past its neighbour `b` when `a`'s id sanitises
      to `b`'s, as with the ids "X" and "x" that a loaded file may hold: the
      first apply refuses the rename and leaves the form as it is, the swap
      puts `b` where the cursor still points, and the second apply accepts
      the same id there and writes `a`'s form over `b`. Unless `b` already
      was what that form describes, `b` is gone and the result is no longer
      a reordering of the two nodes. */
  lemma MoveOverwritesNeighbour(a: Node, b: Node)
    requires SanitizeId(a.nodeId) == b.nodeId && a.nodeId != b.nodeId
    ensures var r := MoveAsWritten([a, b], 0, FormOf(a), 1);
      r == [FormNode(FormOf(a)), a]
      && (b != FormNode(FormOf(a)) ==> multiset(r) != multiset([a, b]))
  {
    var nodes, f := [a, b], FormOf(a);
    assert NodeIds(nodes)[1] == b.nodeId;
    assert ApplyForm(nodes, 0, f) == Applied(nodes, f);
    ApplyAccepted(Swap(nodes, 0, 1), 0, f);
    var r := [FormNode(f), a];
    if b != FormNode(f) {
      assert b in multiset(nodes);
      assert b !in multiset(r);
    }
  }

  /** The ids "X" and "x" meet the condition of `MoveOverwritesNeighbour`. */
  lemma SanitizeUpperX()
    ensures SanitizeId("X") == "x"
  {
    StripCharacterization("X");
    assert Strip("X") == "X";
    assert Lower("X") == "x";
    CleanIdTransliterated("x");
    assert IsCleanId("x");
    SanitizeIdKeepsCleanIds("x");
  }

  /** What `_load_project` leaves after `_select_node(0)`: the cursor of the
      previous project is not cleared, so the previous form is applied to
      the loaded node at that index, or indexing past the loaded list fails. */
  datatype LoadSelect = Selected(nodes: seq<Node>) | IndexFault

  function LoadAsWritten(loaded: seq<Node>, cursor: Cursor, f: NodeForm): LoadSelect {
    if cursor.At? && cursor.index >= |loaded| then IndexFault
    else Selected(ApplyAt(loaded, cursor, f).nodes)
  }

  /** Loading a file whose first node has the id of the node shown in the
      form (as in the start state, where the node "start" is shown and a
      saved quest begins with "start" too) replaces the loaded node by the
      shown one: whatever the file held in that node is lost. */
  lemma LoadOverwritesLoadedNode(shown: Node, file: Node)
    requires Normalized(shown) && file.nodeId == shown.nodeId
    ensures LoadAsWritten([file], At(0), FormOf(shown)) == Selected([shown])
  {
    var f := FormOf(shown);
    NormalizedStable(shown);
    assert SanitizeId(f.idText) == FormNode(f).nodeId == shown.nodeId;
    ApplyAccepted([file], 0, f);
    assert [file][0 := shown] == [shown];
  }

  /** The node the window starts with is normalised. */
  lemma StartNodeNormalized()
    ensures Normalized(NewNode("start", "Start: Ardea"))
  {
    assert IsCleanId("start");
    assert IsStripped("Start: Ardea");
  }

  /** A form whose id is the node's own is always written. */
  lemma ApplyAccepted(nodes: seq<Node>, idx: nat, f: NodeForm)
    requires idx < |nodes| && SanitizeId(f.idText) == nodes[idx].nodeId
    ensures ApplyForm(nodes, idx, f).nodes == nodes[idx := FormNode(f)]
  {
  }

  // --------------------------------------------------------- the metadata form

  /** `_load_meta_to_ui`: what the metadata entries and text boxes show for
      `m`; an empty version stamp shows the clock reading `now` instead. */
  function MetaFormOf(m: QuestMeta, now: string): (f: QuestMeta)
    ensures f.versionStamp != [] <==> m.versionStamp != [] || now != []
    ensures f.versionStamp == if m.versionStamp != [] then m.versionStamp else now
    ensures f.(versionStamp := m.versionStamp) == m
  {
    m.(versionStamp := if m.versionStamp != [] then m.versionStamp else now)
  }

  /** `_apply_meta_from_ui`: every metadata field is what its widget holds,
      stripped. */
  function StripMeta(f: QuestMeta): (m: QuestMeta)
    ensures MetaStripped(m)
  {
    StripCharacterization(f.questName);
    StripCharacterization(f.region);
    StripCharacterization(f.shortDescription);
    StripCharacterization(f.questGiver);
    StripCharacterization(f.prerequisite);
    StripCharacterization(f.questType);
    StripCharacterization(f.metaShort);
    StripCharacterization(f.rewards);
    StripCharacterization(f.importantFlags);
    StripCharacterization(f.versionStamp);
    QuestMeta(Strip(f.questName), Strip(f.region), Strip(f.shortDescription), Strip(f.questGiver),
      Strip(f.prerequisite), Strip(f.questType), Strip(f.metaShort), Strip(f.rewards),
      Strip(f.importantFlags), Strip(f.versionStamp))
  }

  /** No metadata field starts or ends with white space. */
  predicate MetaStripped(m: QuestMeta) {
    IsStripped(m.questName) && IsStripped(m.region) && IsStripped(m.shortDescription)
    && IsStripped(m.questGiver) && IsStripped(m.prerequisite) && IsStripped(m.questType)
    && IsStripped(m.metaShort) && IsStripped(m.rewards) && IsStripped(m.importantFlags)
    && IsStripped(m.versionStamp)
  }

  /** Applying the metadata widgets a second time changes nothing. */
  lemma StripMetaIdempotent(f: QuestMeta)
    ensures StripMeta(StripMeta(f)) == StripMeta(f)
  {
    var m := StripMeta(f);
    StripCharacterization(m.questName);
    StripCharacterization(m.region);
    StripCharacterization(m.shortDescription);
    StripCharacterization(m.questGiver);
    StripCharacterization(m.prerequisite);
    StripCharacterization(m.questType);
    StripCharacterization(m.metaShort);
    StripCharacterization(m.rewards);
    StripCharacterization(m.importantFlags);
    StripCharacterization(m.versionStamp);
  }

  /** Metadata that was applied from the widgets and carries a stamp comes
      back unchanged when it is shown and applied again: loading a saved
      project and saving it keeps its metadata. */
  lemma MetaFormRoundTrip(m: QuestMeta, now: string)
    requires MetaStripped(m) && m.versionStamp != []
    ensures StripMeta(MetaFormOf(m, now)) == m
  {
    StripCharacterization(m.questName);
    StripCharacterization(m.region);
    StripCharacterization(m.shortDescription);
    StripCharacterization(m.questGiver);
    StripCharacterization(m.prerequisite);
    StripCharacterization(m.questType);
    StripCharacterization(m.metaShort);
    StripCharacterization(m.rewards);
    StripCharacterization(m.importantFlags);
    StripCharacterization(m.versionStamp);
  }

  /** The version a page exported right after loading `m` shows, with the
      clock reading `loadTime` (never blank) taken when loading and
      `exportTime` when exporting: the stamp of the file when it is not
      blank, the load time when the file has no stamp, and the export time
      only for a stamp made of white space, which the form keeps and the
      export strips away. */
  lemma ExportedVersion(m: QuestMeta, loadTime: string, exportTime: string)
    requires loadTime != [] && IsStripped(loadTime)
    ensures var v := Renderer.VersionText(StripMeta(MetaFormOf(m, loadTime)), exportTime);
      v == if m.versionStamp == [] then loadTime
        else if Strip(m.versionStamp) != [] then Strip(m.versionStamp)
        else exportTime
  {
    StripCharacterization(loadTime);
    StripIdempotent(m.versionStamp);
  }

  // -------------------------------------------------------------- the editor

  datatype DeleteOutcome = NoNodeSelected | LastNodeKept | NotConfirmed | Deleted(nodeId: string)

  datatype ExportOutcome = DuplicateIds | Page(html: string)

  /** The editor state: the project's metadata and node list, the cursor, the
      node form and what the metadata widgets hold. */
  class QuestEditor {
    var meta: QuestMeta
    var nodes: seq<Node>
    var current: Cursor
    var form: NodeForm
    var metaForm: QuestMeta

    /** At least one node, and the cursor inside the list. */
    ghost predicate Valid()
      reads this
    {
      |nodes| >= 1 && (current.At? ==> current.index < |nodes|)
    }

    /** The window's start state: default metadata, shown in the metadata
        widgets with the clock reading `now` as version, and the node "start",
        selected and shown in the form. */
    constructor (now: string)
      ensures Valid()
      ensures meta == DefaultMeta() && nodes == [NewNode("start", "Start: Ardea")]
      ensures current == At(0) && form == FormOf(NewNode("start", "Start: Ardea"))
      ensures metaForm == MetaFormOf(DefaultMeta(), now)
    {
      meta := DefaultMeta();
      nodes := [NewNode("start", "Start: Ardea")];
      current := NoSelection;
      form := BlankForm();
      metaForm := MetaFormOf(DefaultMeta(), now);
      new;
      Select(0);
    }

    /** `_apply_meta_from_ui`: the metadata becomes what its widgets hold,
        stripped. */
    method ApplyMeta()
      modifies this
      ensures meta == StripMeta(metaForm) && MetaStripped(meta)
      ensures metaForm == old(metaForm) && nodes == old(nodes) && current == old(current) && form == old(form)
    {
      meta := StripMeta(metaForm);
    }

    /** The two steps that open `_add_node`, `_save_project` and
        `_export_html`: the metadata widgets are applied, then the form. */
    method ApplyWidgets()
      requires Valid()
      modifies this
      ensures Valid() && meta == StripMeta(old(metaForm)) && metaForm == old(metaForm) && current == old(current)
      ensures Applied(nodes, form) == ApplyAt(old(nodes), old(current), old(form))
      ensures old(IdsDistinct(nodes)) ==> IdsDistinct(nodes)
    {
      ApplyMeta();
      ghost var before, cursor, f := nodes, current, form;
      ApplyCurrentNode();
      ApplyAtKeepsIdsDistinct(before, cursor, f, nodes);
    }

    /** `_apply_current_node`: writes the form into the selected node unless
        the sanitised id belongs to another node. */
    method ApplyCurrentNode()
      requires Valid()
      modifies this
      ensures Valid() && meta == old(meta) && metaForm == old(metaForm) && current == old(current)
      ensures Applied(nodes, form) == ApplyAt(old(nodes), old(current), old(form))
    {
      if current.NoSelection? {
        return;
      }
      var idx := current.index;
      var f := form;
      var n := nodes[idx];
      var nodeId := SanitizeId(f.idText);
      if nodeId != n.nodeId {
        var existing := IdSet(nodes);
        if nodeId in existing {
          form := f.(idText := n.nodeId);
          return;
        }
      }
      var options := ReadOptions(f.rows);
      var node := Node(nodeId, FormTitle(f.titleText, nodeId), StripText(f.sceneText),
        DialogText(f.dialogText), StripText(f.contentText), LinesToList(f.infoText),
        LinesToList(f.techText), LinesToList(f.outcomesText), StripText(f.notesText), options);
      assert node == FormNode(f);
      nodes := nodes[idx := node];
    }

    /** The loop of `_apply_current_node` over the rows of the options table. */
    static method ReadOptions(rows: seq<OptionRow>) returns (options: seq<Option>)
      ensures options == RowsOptions(rows)
      ensures OptionsNormalized(options)
    {
      options := [];
      var k := 0;
      while k < |rows|
        invariant 0 <= k <= |rows| && options == RowsOptions(rows[..k])
      {
        assert rows[..k + 1][..k] == rows[..k];
        options := options + [RowOption(rows[k])];
        k := k + 1;
      }
      assert rows[..k] == rows;
      RowsOptionsClean(rows);
    }

    /** `_select_node(idx)`: applies the form to the node selected so far,
        then shows node `idx`. */
    method Select(idx: nat)
      requires Valid() && idx < |nodes|
      modifies this
      ensures Valid() && meta == old(meta) && metaForm == old(metaForm)
      ensures nodes == ApplyAt(old(nodes), old(current), old(form)).nodes
      ensures current == At(idx) && form == FormOf(nodes[idx])
    {
      ApplyCurrentNode();
      current := At(idx);
      form := FormOf(nodes[idx]);
    }

    /** `_add_node`: applies the metadata widgets and the form, appends
        `knoten-i` for the smallest free `i` and selects it, which applies the
        form once more. Returns `i`. */
    method AddNode() returns (i: nat)
      requires Valid()
      modifies this
      ensures Valid() && meta == StripMeta(old(metaForm)) && metaForm == old(metaForm)
      ensures var first := ApplyAt(old(nodes), old(current), old(form));
        IsFreshIndex(IdSet(first.nodes), i)
        && nodes == ApplyAt(first.nodes + [AddedNode(i)], old(current), first.form).nodes
      ensures |nodes| == |old(nodes)| + 1 && nodes[|nodes| - 1] == AddedNode(i)
      ensures current == At(|nodes| - 1) && form == FormOf(AddedNode(i))
      ensures old(IdsDistinct(nodes)) ==> IdsDistinct(nodes)
    {
      ApplyWidgets();
      i := AppendFresh();
    }

    /** The id search, the append and the selection of `_add_node`, once the
        form is applied. */
    method AppendFresh() returns (i: nat)
      requires Valid()
      modifies this
      ensures Valid() && meta == old(meta) && metaForm == old(metaForm)
      ensures IsFreshIndex(IdSet(old(nodes)), i)
      ensures nodes == ApplyAt(old(nodes) + [AddedNode(i)], old(current), old(form)).nodes
      ensures |nodes| == |old(nodes)| + 1 && nodes[|nodes| - 1] == AddedNode(i)
      ensures current == At(|nodes| - 1) && form == FormOf(AddedNode(i))
      ensures old(IdsDistinct(nodes)) ==> IdsDistinct(nodes)
    {
      i := FreshNodeIndex(nodes);
      AddKeepsIdsDistinct(nodes, i);
      nodes := nodes + [AddedNode(i)];
      ghost var appended, cursor, f := nodes, current, form;
      Select(|nodes| - 1);
      ApplyAtKeepsIdsDistinct(appended, cursor, f, nodes);
      ApplyAtElsewhere(appended, cursor, f, nodes, |appended| - 1);
    }

    /** `_delete_node`, with the user's answer to the confirmation as
        `confirmed`: refused without a selection or when only one node is
        left; otherwise removes the selected node and selects the one before
        it (or the first). The form is not applied first. */
    method DeleteNode(confirmed: bool) returns (outcome: DeleteOutcome)
      requires Valid()
      modifies this
      ensures Valid() && meta == old(meta) && metaForm == old(metaForm)
      ensures outcome.Deleted? <==> old(current).At? && |old(nodes)| > 1 && confirmed
      ensures outcome == NoNodeSelected <==> old(current).NoSelection?
      ensures outcome == LastNodeKept <==> old(current).At? && |old(nodes)| <= 1
      ensures !outcome.Deleted? ==> nodes == old(nodes) && current == old(current) && form == old(form)
      ensures outcome.Deleted? ==>
        var idx := old(current).index;
        var next := if idx >= 1 then idx - 1 else 0;
        outcome.nodeId == old(nodes)[idx].nodeId
        && nodes == Without(old(nodes), idx)
        && current == At(next) && form == FormOf(nodes[next])
    {
      if current.NoSelection? {
        return NoNodeSelected;
      }
      if |nodes| <= 1 {
        return LastNodeKept;
      }
      var idx := current.index;
      var n := nodes[idx];
      if !confirmed {
        return NotConfirmed;
      }
      nodes := nodes[..idx] + nodes[idx + 1..];
      current := NoSelection;
      Select(if idx >= 1 then idx - 1 else 0);
      outcome := Deleted(n.nodeId);
    }

    /** `_move_node(direction)`: applies the form and swaps the selected node
        with the one `direction` places away, doing nothing when that place
        is outside the list; the moved node stays selected. The cursor is
        cleared before reselecting, as `_delete_node` does. */
    method MoveNode(direction: int)
      requires Valid()
      modifies this
      ensures Valid() && meta == old(meta) && metaForm == old(metaForm)
      ensures old(current).NoSelection? ==> nodes == old(nodes) && current == old(current) && form == old(form)
      ensures old(current).At? ==>
        var idx := old(current).index;
        var newIdx := idx + direction;
        if newIdx < 0 || newIdx >= |old(nodes)| then
          nodes == old(nodes) && current == old(current) && form == old(form)
        else
          var first := ApplyForm(old(nodes), idx, old(form)).nodes;
          nodes == Swap(first, idx, newIdx)
          && multiset(nodes) == multiset(first)
          && current == At(newIdx) && form == FormOf(nodes[newIdx])
      ensures old(IdsDistinct(nodes)) ==> IdsDistinct(nodes)
    {
      if current.NoSelection? {
        return;
      }
      var idx := current.index;
      var newIdx := idx + direction;
      if newIdx < 0 || newIdx >= |nodes| {
        return;
      }
      ghost var before, f := nodes, form;
      ApplyCurrentNode();
      ApplyAtKeepsIdsDistinct(before, current, f, nodes);
      SwapSelected(newIdx);
    }

    /** The swap and reselection of `_move_node`, once the form is applied. */
    method SwapSelected(newIdx: nat)
      requires Valid() && current.At? && newIdx < |nodes|
      modifies this
      ensures Valid() && meta == old(meta) && metaForm == old(metaForm)
      ensures nodes == Swap(old(nodes), old(current).index, newIdx)
      ensures current == At(newIdx) && form == FormOf(nodes[newIdx])
      ensures old(IdsDistinct(nodes)) ==> IdsDistinct(nodes)
    {
      SwapKeepsIdsDistinct(nodes, current.index, newIdx);
      nodes := Swap(nodes, current.index, newIdx);
      current := NoSelection;
      Select(newIdx);
    }

    /** `_save_project` without the file: applies the metadata widgets and the
        form and encodes the project; loading the document gives the project
        back. */
    method Save() returns (doc: Codec.Json)
      requires Valid()
      modifies this
      ensures Valid() && meta == StripMeta(old(metaForm)) && metaForm == old(metaForm) && current == old(current)
      ensures Applied(nodes, form) == ApplyAt(old(nodes), old(current), old(form))
      ensures Codec.LoadProject(doc) == Codec.Ok(QuestProject(meta, nodes))
    {
      ApplyWidgets();
      doc := Codec.EncodeProject(QuestProject(meta, nodes));
      Codec.SaveLoadRoundTrip(QuestProject(meta, nodes));
    }

    /** `_load_project` once the file is read, with the clock reading `now`:
        a document the codec rejects changes nothing; otherwise the loaded
        project (with a start node if it has none) replaces the old one, its
        metadata is shown in the metadata widgets and its first node is
        selected. The cursor is cleared first, so the old form is not
        written into the loaded nodes. */
    method Load(doc: Codec.Json, now: string) returns (loaded: bool)
      requires Valid()
      modifies this
      ensures Valid()
      ensures loaded <==> Codec.LoadProject(doc).Ok?
      ensures !loaded ==>
        meta == old(meta) && nodes == old(nodes) && current == old(current) && form == old(form)
        && metaForm == old(metaForm)
      ensures loaded ==>
        QuestProject(meta, nodes) == Codec.LoadProject(doc).value
        && current == At(0) && form == FormOf(nodes[0]) && metaForm == MetaFormOf(meta, now)
    {
      var r := Codec.LoadProject(doc);
      if r.Err? {
        return false;
      }
      Install(r.value, now);
      loaded := true;
    }

    /** Puts a loaded project in place, shows its metadata and selects its
        first node, with the cursor cleared so that nothing is applied on the
        way. */
    method Install(p: QuestProject, now: string)
      requires Valid() && |p.nodes| >= 1
      modifies this
      ensures Valid() && meta == p.meta && nodes == p.nodes && metaForm == MetaFormOf(p.meta, now)
      ensures current == At(0) && form == FormOf(nodes[0])
    {
      meta := p.meta;
      nodes := p.nodes;
      metaForm := MetaFormOf(meta, now);
      current := NoSelection;
      Select(0);
    }

    /** `_export_html` without the file: applies the metadata widgets and the
        form, refuses when two nodes share an id, and otherwise renders the
        page with the script, `now` being the clock reading. */
    method Export(now: string) returns (outcome: ExportOutcome)
      requires Valid()
      modifies this
      ensures Valid() && meta == StripMeta(old(metaForm)) && metaForm == old(metaForm) && current == old(current)
      ensures Applied(nodes, form) == ApplyAt(old(nodes), old(current), old(form))
      ensures outcome.DuplicateIds? <==> !IdsDistinct(nodes)
      ensures outcome.Page? ==> outcome.html == Renderer.RenderHtml(QuestProject(meta, nodes), true, now)
      ensures old(IdsDistinct(nodes)) ==> outcome.Page?
    {
      ApplyWidgets();
      ghost var m := meta;  // ExportPage is static and leaves the metadata alone
      outcome := ExportPage(QuestProject(meta, nodes), now);
      assert meta == m;
    }

    /** The duplicate check and the rendering of `_export_html`. */
    static method ExportPage(p: QuestProject, now: string) returns (outcome: ExportOutcome)
      ensures outcome.DuplicateIds? <==> !IdsDistinct(p.nodes)
      ensures outcome.Page? ==> outcome.html == Renderer.RenderHtml(p, true, now)
    {
      DuplicateCheckCorrect(p.nodes);
      if HasDuplicateIds(p.nodes) {
        return DuplicateIds;
      }
      var html := RenderPage(p, now);
      outcome := Page(html);
    }

    /** `render_html(self.project, include_js=True)`. */
    static method RenderPage(p: QuestProject, now: string) returns (html: string)
      ensures html == Renderer.RenderHtml(p, true, now)
    {
      html := Renderer.RenderHtml(p, true, now);
    }
  }
}
