/**
 * The HTML presenter: `render_nav`, `render_meta_list`, `render_options`,
 * `render_list_block`, `render_details`, `render_node_section` and
 * `render_html`. Each builds a list of parts and joins it, as `quest_generator.py` does;
 * the clock reading used when the quest has no version stamp is a parameter,
 * and the stylesheet and script blocks are fixed texts without logic.
 */
module Renderer {
  import opened StrLib
  import opened Helpers
  import opened QuestModel

  /** The fixed `<style>` block; its rules are not part of this model. */
  const CssBlock: string := "\n  <style>\n    /* stylesheet */\n  </style>\n"
  /** The fixed `<script>` block; its code is not part of this model. */
  const JsBlock: string := "\n  <script>\n    /* anchor focus and highlight */\n  </script>\n"

  /** An in-page link `<a href="#target">text</a>`. */
  function Link(target: string, text: string): string {
    "<a href=\"#" + target + "\">" + text + "</a>"
  }

  /** A link adds its opening and closing tag to what target and text hold. */
  lemma LinkTags(target: string, text: string)
    ensures Tags(Link(target, text)) == 2 + Tags(target) + Tags(text)
  {
    TagsCount("<a href=\"#");
    assert multiset("<a href=\"#")['<'] == 1;
    NoTags("\">");
    TagsCount("</a>");
    assert multiset("</a>")['<'] == 1;
    FrameTags("<a href=\"#", target, "\">", text, "</a>");
  }

  /** `v.strip() or "—"` */
  function OrDash(v: string): string {
    var t := Strip(v);
    if t == [] then "—" else t
  }

  // ---------------------------------------------------------------- render_nav

  const NavSep: string := "\n      "
  const NavOpen: string := "<nav aria-label=\"Quest-Navigation\">"
  const NavTopLink: string := Link("top", "Übersicht")

  /** `n.title or n.node_id`: the raw title, not stripped. */
  function NavLabel(n: Node): string {
    if n.title != [] then n.title else n.nodeId
  }

  function NavLink(n: Node): string {
    Link(HtmlEscape(n.nodeId), HtmlEscape(NavLabel(n)))
  }

  function NavLinks(nodes: seq<Node>): seq<string> {
    seq(|nodes|, i requires 0 <= i < |nodes| => NavLink(nodes[i]))
  }

  function NavParts(nodes: seq<Node>): seq<string> {
    [NavOpen, NavTopLink] + NavLinks(nodes) + ["</nav>"]
  }

  function RenderNav(nodes: seq<Node>): string {
    Join(NavParts(nodes), NavSep)
  }

  /** The navigation holds the link to the overview and then one link per node,
      in node order, between its opening and closing tags. */
  lemma NavLayout(nodes: seq<Node>)
    ensures InOrder(RenderNav(nodes), [NavOpen, NavTopLink] + NavLinks(nodes) + ["</nav>"])
    ensures |NavLinks(nodes)| == |nodes|
    ensures forall i :: 0 <= i < |nodes| ==> NavLinks(nodes)[i] == NavLink(nodes[i])
  {
    InOrderJoin(NavParts(nodes), NavSep);
  }

  /** A node with a clean id is linked under that very id; its label is the
      escaped title, or the id when the title is empty. */
  lemma NavLinkOfCleanId(n: Node)
    requires IsCleanId(n.nodeId)
    ensures NavLink(n) == Link(n.nodeId, if n.title != [] then HtmlEscape(n.title) else n.nodeId)
  {
    CleanIdNeedsNoEscape(n.nodeId);
  }

  /** The navigation opens with the link to the overview, ahead of every
      node's link. */
  lemma NavTopLinkFirst(nodes: seq<Node>)
    ensures var head := NavOpen + NavSep + NavTopLink + NavSep;
      |head| <= |RenderNav(nodes)| && RenderNav(nodes)[..|head|] == head
  {
    var parts := NavParts(nodes);
    JoinFirstTwo(parts, NavSep);
    var head := NavOpen + NavSep + NavTopLink + NavSep;
    assert RenderNav(nodes) == head + Join(parts[2..], NavSep);
  }

  /** Each node adds exactly the two tags of its link to the navigation, and
      its title and id add none: no other markup enters. */
  lemma NavTags(nodes: seq<Node>)
    ensures Tags(RenderNav(nodes)) == Tags(RenderNav([])) + 2 * |nodes|
  {
    NavFrameTags(nodes);
    NavFrameTags([]);
  }

  lemma NavFrameTags(nodes: seq<Node>)
    ensures Tags(RenderNav(nodes)) == Tags(Join([NavOpen, NavTopLink] + ["</nav>"], NavSep)) + 2 * |nodes|
  {
    var links := NavLinks(nodes);
    forall i | 0 <= i < |links|
      ensures Tags(links[i]) == 2
    {
      NavLinkTags(nodes[i]);
    }
    assert '<' !in NavSep;
    NoTags(NavSep);
    FramedJoinTags([NavOpen, NavTopLink], links, ["</nav>"], NavSep, 2);
  }

  lemma NavLinkTags(n: Node)
    ensures Tags(NavLink(n)) == 2
  {
    EscapedTags(n.nodeId);
    EscapedTags(NavLabel(n));
    LinkTags(HtmlEscape(n.nodeId), HtmlEscape(NavLabel(n)));
  }

  // ---------------------------------------------------------- render_meta_list

  const MetaSep: string := "\n        "

  /** The six metadata entries, in the order the overview lists them. */
  function MetaEntries(meta: QuestMeta): seq<(string, string)> {
    [("Questgeber", meta.questGiver),
     ("Voraussetzung", meta.prerequisite),
     ("Art", meta.questType),
     ("Kurzbeschreibung", meta.metaShort),
     ("Belohnungen", meta.rewards),
     ("Wichtige Flags", meta.importantFlags)]
  }

  function MetaItem(key: string, value: string): string {
    "<li><strong>" + HtmlEscape(key) + ":</strong> " + HtmlEscape(OrDash(value)) + "</li>"
  }

  function MetaItems(meta: QuestMeta): seq<string> {
    var entries := MetaEntries(meta);
    seq(|entries|, i requires 0 <= i < |entries| => MetaItem(entries[i].0, entries[i].1))
  }

  function RenderMetaList(meta: QuestMeta): string {
    Join(MetaItems(meta), MetaSep)
  }

  /** Six list items, in the fixed order; a blank value shows as a dash and any
      other value stripped. */
  lemma MetaListLayout(meta: QuestMeta)
    ensures InOrder(RenderMetaList(meta), MetaItems(meta))
    ensures |MetaItems(meta)| == 6
    ensures MetaItems(meta)[0] == MetaItem("Questgeber", meta.questGiver)
    ensures MetaItems(meta)[5] == MetaItem("Wichtige Flags", meta.importantFlags)
    ensures forall v :: Strip(v) == [] ==> OrDash(v) == "—"
    ensures forall v :: Strip(v) != [] ==> OrDash(v) == Strip(v) && IsStripped(OrDash(v))
  {
    InOrderJoin(MetaItems(meta), MetaSep);
    forall v | Strip(v) != []
      ensures IsStripped(OrDash(v))
    {
      StripCharacterization(v);
    }
  }

  /** The metadata values add no markup: the list has the tags of six items
      with empty key and value, whatever the metadata say. */
  lemma MetaListTags(meta: QuestMeta)
    ensures Tags(RenderMetaList(meta)) == 6 * Tags(MetaItem("", ""))
  {
    forall i | 0 <= i < 6
      ensures Tags(MetaItems(meta)[i]) == Tags(MetaItem("", ""))
    {
      MetaItemAtTags(meta, i);
    }
    assert '<' !in MetaSep;
    NoTags(MetaSep);
    UniformJoinTags(MetaItems(meta), MetaSep, Tags(MetaItem("", "")));
  }

  lemma MetaItemAtTags(meta: QuestMeta, i: nat)
    requires i < 6
    ensures Tags(MetaItems(meta)[i]) == Tags(MetaItem("", ""))
  {
    MetaItemTags(MetaEntries(meta)[i].0, MetaEntries(meta)[i].1);
  }

  lemma MetaItemTags(key: string, value: string)
    ensures Tags(MetaItem(key, value)) == Tags(MetaItem("", ""))
  {
    EscapedTags(key);
    EscapedTags(OrDash(value));
    EscapedTags("");
    EscapedTags(OrDash(""));
    FrameTags("<li><strong>", HtmlEscape(key), ":</strong> ", HtmlEscape(OrDash(value)), "</li>");
    FrameTags("<li><strong>", HtmlEscape(""), ":</strong> ", HtmlEscape(OrDash("")), "</li>");
  }

  // ------------------------------------------------------------ render_options

  const OptSep: string := "\n      "
  const NoOptions: string := "<p><em>Keine Optionen.</em></p>"
  const UnknownMarker: string := " <em style=\"color:#b42318;\">(Ziel unbekannt)</em>"
  /** How a flagged option item ends. */
  const FlagSuffix: string := UnknownMarker + "</li>"

  /** `opt.label.strip() or "Option"` */
  function OptionLabel(o: Option): string {
    var l := Strip(o.labelText);
    if l == [] then "Option" else l
  }

  /** One `<li>` of the option list. A stripped target that is not among `ids`
      (which includes "top" and "end") keeps its link, pointing to "#top" when
      empty, and is flagged as unknown. */
  function OptionItem(o: Option, ids: seq<string>): string {
    var target := Strip(o.target);
    var caption := HtmlEscape(OptionLabel(o));
    if target !in ids then
      "<li>" + Link(HtmlEscape(if target == [] then "top" else target), caption) + UnknownMarker + "</li>"
    else
      "<li>" + Link(HtmlEscape(target), caption) + "</li>"
  }

  function OptionItems(os: seq<Option>, ids: seq<string>): seq<string> {
    seq(|os|, i requires 0 <= i < |os| => OptionItem(os[i], ids))
  }

  function OptionParts(os: seq<Option>, ids: seq<string>): seq<string> {
    ["<h3>Optionen</h3>", "<ol>"] + OptionItems(os, ids) + ["</ol>"]
  }

  function RenderOptions(node: Node, ids: seq<string>): string {
    if node.options == [] then NoOptions else Join(OptionParts(node.options, ids), OptSep)
  }

  /** An item carries the "unknown target" flag. */
  predicate IsFlagged(item: string) {
    |FlagSuffix| <= |item| && item[|item| - |FlagSuffix|..] == FlagSuffix
  }

  /** An item whose link is followed directly by `</li>` carries no flag. */
  lemma UnflaggedItem(href: string, caption: string)
    ensures !IsFlagged("<li>" + Link(href, caption) + "</li>")
  {
    var x := "<li>" + "<a href=\"#" + href + "\">" + caption;
    var s := x + "</a></li>";
    assert "<li>" + Link(href, caption) + "</li>" == s;
    assert s[|s| - 7] == 'a';
    assert FlagSuffix[|FlagSuffix| - 7] == 'm';
    assert |FlagSuffix| <= |s| ==> s[|s| - |FlagSuffix|..][|FlagSuffix| - 7] == s[|s| - 7];
  }

  lemma FlaggedItem(href: string, caption: string)
    ensures IsFlagged("<li>" + Link(href, caption) + UnknownMarker + "</li>")
  {
    var x := "<li>" + Link(href, caption);
    var s := x + FlagSuffix;
    assert x + UnknownMarker + "</li>" == s;
    assert s[|s| - |FlagSuffix|..] == FlagSuffix;
  }

  /** An option is flagged exactly when its stripped target is not a node id. */
  lemma OptionFlagged(o: Option, ids: seq<string>)
    ensures IsFlagged(OptionItem(o, ids)) <==> Strip(o.target) !in ids
  {
    var target := Strip(o.target);
    var caption := HtmlEscape(OptionLabel(o));
    if target in ids {
      UnflaggedItem(HtmlEscape(target), caption);
    } else {
      FlaggedItem(HtmlEscape(if target == [] then "top" else target), caption);
    }
  }

  /** An option without a target links to the overview, unless some node has the
      empty id; a non-empty target is linked as written, after stripping and
      escaping. */
  lemma OptionHref(o: Option, ids: seq<string>)
    ensures var caption := HtmlEscape(OptionLabel(o));
      InOrder(OptionItem(o, ids),
        [Link(HtmlEscape(if Strip(o.target) == [] && [] !in ids then "top" else Strip(o.target)), caption)])
  {
    var target := Strip(o.target);
    var caption := HtmlEscape(OptionLabel(o));
    var href := HtmlEscape(if target == [] && [] !in ids then "top" else target);
    var l := Link(href, caption);
    InOrderSingle(l);
    InOrderPrepend("<li>", l, [l]);
    if target !in ids {
      InOrderAppend("<li>" + l, UnknownMarker + "</li>", [l]);
      assert OptionItem(o, ids) == "<li>" + l + (UnknownMarker + "</li>");
    } else {
      InOrderAppend("<li>" + l, "</li>", [l]);
    }
  }

  /** The fallback label is used exactly when the label is blank. */
  lemma OptionLabelFallback(o: Option)
    ensures OptionLabel(o) == "Option" || OptionLabel(o) == Strip(o.labelText)
    ensures Strip(o.labelText) == [] ==> OptionLabel(o) == "Option"
    ensures OptionLabel(o) != []
  {
  }

  /** An option item holds its `<li>` pair and its link, plus the flag's
      markup when its target is unknown; label and target add none. */
  lemma OptionItemTags(o: Option, ids: seq<string>)
    ensures Tags(OptionItem(o, ids)) == 4 + if Strip(o.target) in ids then 0 else Tags(UnknownMarker)
  {
    var target := Strip(o.target);
    var caption := HtmlEscape(OptionLabel(o));
    var href := HtmlEscape(if target !in ids && target == [] then "top" else target);
    EscapedTags(OptionLabel(o));
    EscapedTags(if target !in ids && target == [] then "top" else target);
    LinkTags(href, caption);
    TagsCount("<li>");
    assert multiset("<li>")['<'] == 1;
    TagsCount("</li>");
    assert multiset("</li>")['<'] == 1;
    if target in ids {
      TagsAppend3("<li>", Link(href, caption), "</li>");
    } else {
      TagsAppend3("<li>", Link(href, caption), UnknownMarker);
      TagsAppend("<li>" + Link(href, caption) + UnknownMarker, "</li>");
    }
  }

  /** The options whose stripped target is not among `ids`. */
  function UnknownTargets(os: seq<Option>, ids: seq<string>): nat {
    if os == [] then 0 else (if Strip(os[0].target) in ids then 0 else 1) + UnknownTargets(os[1..], ids)
  }

  lemma {:induction false} OptionItemsTags(os: seq<Option>, ids: seq<string>)
    ensures TagsOf(OptionItems(os, ids)) == 4 * |os| + Tags(UnknownMarker) * UnknownTargets(os, ids)
  {
    if os != [] {
      var items := OptionItems(os, ids);
      OptionItemsTags(os[1..], ids);
      assert items[1..] == OptionItems(os[1..], ids);
      OptionItemTags(os[0], ids);
      TagsOfCount(items, 4, Tags(UnknownMarker), Strip(os[0].target) !in ids, |os| - 1, UnknownTargets(os[1..], ids));
    }
  }

  /** Beyond the heading and the list around them, the options add four tags
      apiece and the flag's for each unknown target, and nothing else. */
  lemma OptionsTags(node: Node, ids: seq<string>)
    ensures node.options != [] ==>
      Tags(RenderOptions(node, ids)) == Tags(Join(["<h3>Optionen</h3>", "<ol>", "</ol>"], OptSep))
        + (4 * |node.options| + Tags(UnknownMarker) * UnknownTargets(node.options, ids))
  {
    if node.options != [] {
      NoTags(OptSep);
      OptionItemsTags(node.options, ids);
      FramedJoinTagsOf(["<h3>Optionen</h3>", "<ol>"], OptionItems(node.options, ids), ["</ol>"], OptSep);
      assert ["<h3>Optionen</h3>", "<ol>"] + ["</ol>"] == ["<h3>Optionen</h3>", "<ol>", "</ol>"];
    }
  }

  lemma {:induction false} JoinStartsWith(parts: seq<string>, sep: string)
    requires parts != []
    ensures |parts[0]| <= |Join(parts, sep)| && Join(parts, sep)[..|parts[0]|] == parts[0]
  {
  }

  /** A node without options shows the placeholder and nothing else; any other
      node shows a heading and a numbered list with one item per option, in
      order. */
  lemma OptionsLayout(node: Node, ids: seq<string>)
    ensures RenderOptions(node, ids) == NoOptions <==> node.options == []
    ensures node.options != [] ==>
      InOrder(RenderOptions(node, ids), ["<h3>Optionen</h3>", "<ol>"] + OptionItems(node.options, ids) + ["</ol>"])
    ensures |OptionItems(node.options, ids)| == |node.options|
  {
    if node.options != [] {
      var parts := OptionParts(node.options, ids);
      InOrderJoin(parts, OptSep);
      JoinStartsWith(parts, OptSep);
      var r := RenderOptions(node, ids);
      assert r[1] == parts[0][1] == 'h';
      assert NoOptions[1] == 'p';
    }
  }

  // ------------------------------------------- render_list_block, render_details

  function ListItems(items: seq<string>): seq<string> {
    seq(|items|, i requires 0 <= i < |items| => "<li>" + HtmlEscape(items[i]) + "</li>")
  }

  /** The labelled bullet list of a node, or "" without items (the trailing
      newline of the template is what `.rstrip()` removes). */
  function RenderListBlock(title: string, items: seq<string>): string {
    if items == [] then ""
    else
      "\n      <p><strong>" + HtmlEscape(title) + ":</strong></p>\n      <ul>\n        "
      + Join(ListItems(items), "\n        ") + "\n      </ul>"
  }

  /** The collapsible list of a node, or "" without items. */
  function RenderDetails(title: string, items: seq<string>): string {
    if items == [] then ""
    else
      "\n      <details>\n        <summary>" + HtmlEscape(title) + "</summary>\n        <ul>\n          "
      + Join(ListItems(items), "\n          ") + "\n        </ul>\n      </details>"
  }

  /** Both list renderings are empty exactly without items. */
  lemma ListBlocksEmpty(title: string, items: seq<string>)
    ensures RenderListBlock(title, items) == [] <==> items == []
    ensures RenderDetails(title, items) == [] <==> items == []
  {
  }

  /** Both list renderings show one escaped `<li>` per item, in order. */
  lemma ListBlocks(title: string, items: seq<string>)
    ensures InOrder(RenderListBlock(title, items), ListItems(items))
    ensures InOrder(RenderDetails(title, items), ListItems(items))
    ensures |ListItems(items)| == |items|
  {
    if items != [] {
      var j := Join(ListItems(items), "\n          ");
      var k := Join(ListItems(items), "\n        ");
      InOrderJoin(ListItems(items), "\n          ");
      InOrderJoin(ListItems(items), "\n        ");
      var p1 := "\n      <p><strong>" + HtmlEscape(title) + ":</strong></p>\n      <ul>\n        ";
      var p2 := "\n      <details>\n        <summary>" + HtmlEscape(title) + "</summary>\n        <ul>\n          ";
      InOrderPrepend(p1, k, ListItems(items));
      InOrderAppend(p1 + k, "\n      </ul>", ListItems(items));
      InOrderPrepend(p2, j, ListItems(items));
      InOrderAppend(p2 + j, "\n        </ul>\n      </details>", ListItems(items));
    }
  }

  /** An item of a list block holds its `<li>` pair and no other tag. */
  lemma ListItemTags(items: seq<string>, i: nat)
    requires i < |items|
    ensures Tags(ListItems(items)[i]) == 2
  {
    TagsCount("<li>");
    assert multiset("<li>")['<'] == 1;
    TagsCount("</li>");
    assert multiset("</li>")['<'] == 1;
    EscapedTags(items[i]);
    TagsAppend3("<li>", HtmlEscape(items[i]), "</li>");
  }

  lemma ListItemsTags(items: seq<string>, sep: string)
    requires '<' !in sep
    ensures Tags(Join(ListItems(items), sep)) == 2 * |items|
  {
    forall i | 0 <= i < |items|
      ensures Tags(ListItems(items)[i]) == 2
    {
      ListItemTags(items, i);
    }
    NoTags(sep);
    UniformJoinTags(ListItems(items), sep, 2);
  }

  lemma ListBlockFrame(title: string, items: seq<string>)
    requires items != []
    ensures Tags(RenderListBlock(title, items)) ==
      Tags("\n      <p><strong>") + Tags(":</strong></p>\n      <ul>\n        ") + 2 * |items| + Tags("\n      </ul>")
  {
    assert '<' !in "\n        ";
    ListItemsTags(items, "\n        ");
    EscapedTags(title);
    FrameTags("\n      <p><strong>", HtmlEscape(title), ":</strong></p>\n      <ul>\n        ",
      Join(ListItems(items), "\n        "), "\n      </ul>");
  }

  lemma DetailsFrame(title: string, items: seq<string>)
    requires items != []
    ensures Tags(RenderDetails(title, items)) ==
      Tags("\n      <details>\n        <summary>") + Tags("</summary>\n        <ul>\n          ") + 2 * |items|
      + Tags("\n        </ul>\n      </details>")
  {
    assert '<' !in "\n          ";
    ListItemsTags(items, "\n          ");
    EscapedTags(title);
    FrameTags("\n      <details>\n        <summary>", HtmlEscape(title), "</summary>\n        <ul>\n          ",
      Join(ListItems(items), "\n          "), "\n        </ul>\n      </details>");
  }

  /** Beyond the fixed markup of a one-item list, whatever the title, each
      further item adds its `<li>` pair and nothing else; no items, no markup. */
  lemma ListBlockTags(title: string, items: seq<string>)
    ensures items == [] ==> Tags(RenderListBlock(title, items)) == 0
    ensures items != [] ==> Tags(RenderListBlock(title, items)) == Tags(RenderListBlock("", [""])) + 2 * (|items| - 1)
  {
    if items != [] {
      ListBlockFrame(title, items);
      ListBlockFrame("", [""]);
    }
  }

  /** The same for the collapsible list. */
  lemma DetailsTags(title: string, items: seq<string>)
    ensures items == [] ==> Tags(RenderDetails(title, items)) == 0
    ensures items != [] ==> Tags(RenderDetails(title, items)) == Tags(RenderDetails("", [""])) + 2 * (|items| - 1)
  {
    if items != [] {
      DetailsFrame(title, items);
      DetailsFrame("", [""]);
    }
  }

  // ------------------------------------------------------- render_node_section

  /** The optional blocks of a node section. The section lists them by rank:
      scene, content, dialog, information, flags, outcomes, options, notes. */
  datatype Block =
    | SceneLine(text: string)
    | ContentLine(text: string)
    | DialogBlock(text: string)
    | InfoList(items: seq<string>)
    | TechDetails(items: seq<string>)
    | OutcomesDetails(items: seq<string>)
    | OptionList(html: string)
    | NotesLine(text: string)

  const BlockKinds: nat := 8

  function Rank(b: Block): nat {
    match b
    case SceneLine(_) => 0
    case ContentLine(_) => 1
    case DialogBlock(_) => 2
    case InfoList(_) => 3
    case TechDetails(_) => 4
    case OutcomesDetails(_) => 5
    case OptionList(_) => 6
    case NotesLine(_) => 7
  }

  /** The candidate block of rank `k`, paired with whether the section shows
      it: a text field when it is not blank after stripping (and then stripped),
      a list block when the list has items (its rendering is empty otherwise,
      see `ListBlocksEmpty`), the option list always. */
  function Candidate(node: Node, optionList: string, k: nat): (c: (bool, Block))
    requires k < BlockKinds
    ensures Rank(c.1) == k
  {
    if k == 0 then (Strip(node.scene) != [], SceneLine(Strip(node.scene)))
    else if k == 1 then (Strip(node.content) != [], ContentLine(Strip(node.content)))
    else if k == 2 then (Strip(node.dialog) != [], DialogBlock(Strip(node.dialog)))
    else if k == 3 then (node.infoItems != [], InfoList(node.infoItems))
    else if k == 4 then (node.techFlags != [], TechDetails(node.techFlags))
    else if k == 5 then (node.outcomes != [], OutcomesDetails(node.outcomes))
    else if k == 6 then (true, OptionList(optionList))
    else (Strip(node.notes) != [], NotesLine(Strip(node.notes)))
  }

  /** The candidates of a section, in rank order. */
  function Candidates(node: Node, optionList: string): (cs: seq<(bool, Block)>)
    ensures |cs| == BlockKinds
  {
    var o := optionList;
    [Candidate(node, o, 0), Candidate(node, o, 1), Candidate(node, o, 2), Candidate(node, o, 3),
     Candidate(node, o, 4), Candidate(node, o, 5), Candidate(node, o, 6), Candidate(node, o, 7)]
  }

  /** The candidates of a node's section, its option list rendered against `ids`. */
  function SectionCandidates(node: Node, ids: seq<string>): seq<(bool, Block)> {
    Candidates(node, RenderOptions(node, ids))
  }

  /** The candidate at position `k` has rank `k`. */
  lemma CandidateRanks(node: Node, optionList: string)
    ensures forall k :: 0 <= k < BlockKinds ==> Rank(Candidates(node, optionList)[k].1) == k
  {
    var cs := Candidates(node, optionList);
    assert Rank(cs[0].1) == 0 && Rank(cs[1].1) == 1 && Rank(cs[2].1) == 2 && Rank(cs[3].1) == 3;
    assert Rank(cs[4].1) == 4 && Rank(cs[5].1) == 5 && Rank(cs[6].1) == 6 && Rank(cs[7].1) == 7;
  }

  /** The shown blocks among the candidates from rank `k` on. */
  function Shown(cs: seq<(bool, Block)>, k: nat): seq<Block>
    requires k <= |cs|
    decreases |cs| - k
  {
    if k == |cs| then [] else (if cs[k].0 then [cs[k].1] else []) + Shown(cs, k + 1)
  }

  /** Each shown block from rank `k` on is a shown candidate of its own rank,
      of rank `k` or more. */
  lemma {:induction false} ShownAt(cs: seq<(bool, Block)>, k: nat, i: nat)
    requires k <= |cs| && forall r :: 0 <= r < |cs| ==> Rank(cs[r].1) == r
    requires i < |Shown(cs, k)|
    ensures var b := Shown(cs, k)[i];
      k <= Rank(b) < |cs| && b == cs[Rank(b)].1 && cs[Rank(b)].0
    decreases |cs| - k
  {
    var rest := Shown(cs, k + 1);
    if cs[k].0 {
      ShownTaken(cs, k);
      if i > 0 {
        ShownAt(cs, k + 1, i - 1);
        assert Shown(cs, k)[i] == rest[i - 1];
      }
    } else {
      ShownSkipped(cs, k);
      ShownAt(cs, k + 1, i);
    }
  }

  /** Shown blocks come in strictly increasing rank. */
  lemma {:induction false} ShownPair(cs: seq<(bool, Block)>, k: nat, i: nat, j: nat)
    requires k <= |cs| && forall r :: 0 <= r < |cs| ==> Rank(cs[r].1) == r
    requires i < j < |Shown(cs, k)|
    ensures Rank(Shown(cs, k)[i]) < Rank(Shown(cs, k)[j])
    decreases |cs| - k
  {
    var rest := Shown(cs, k + 1);
    if cs[k].0 {
      ShownTaken(cs, k);
      assert Shown(cs, k)[j] == rest[j - 1];
      if i == 0 {
        ShownAt(cs, k + 1, j - 1);
      } else {
        ShownPair(cs, k + 1, i - 1, j - 1);
        assert Shown(cs, k)[i] == rest[i - 1];
      }
    } else {
      ShownSkipped(cs, k);
      ShownPair(cs, k + 1, i, j);
    }
  }

  lemma ShownTaken(cs: seq<(bool, Block)>, k: nat)
    requires k < |cs| && cs[k].0
    ensures Shown(cs, k) == [cs[k].1] + Shown(cs, k + 1)
  {
  }

  lemma ShownSkipped(cs: seq<(bool, Block)>, k: nat)
    requires k < |cs| && !cs[k].0
    ensures Shown(cs, k) == Shown(cs, k + 1)
  {
    assert [] + Shown(cs, k + 1) == Shown(cs, k + 1);
  }

  /** Every shown candidate from rank `k` on is among the blocks. */
  lemma {:induction false} ShownHas(cs: seq<(bool, Block)>, k: nat, m: nat)
    requires k <= m < |cs| && cs[m].0
    ensures exists i :: 0 <= i < |Shown(cs, k)| && Shown(cs, k)[i] == cs[m].1
    decreases m - k
  {
    var rest := Shown(cs, k + 1);
    if m == k {
      assert Shown(cs, k)[0] == cs[m].1;
    } else {
      ShownHas(cs, k + 1, m);
      var i :| 0 <= i < |rest| && rest[i] == cs[m].1;
      if cs[k].0 {
        assert Shown(cs, k) == [cs[k].1] + rest;
        assert Shown(cs, k)[i + 1] == rest[i];
      } else {
        assert Shown(cs, k) == rest;
      }
    }
  }

  /** The blocks of a section. */
  function SectionBlocks(node: Node, ids: seq<string>): seq<Block> {
    Shown(SectionCandidates(node, ids), 0)
  }

  /** A section's blocks are candidates it shows, in strictly increasing rank,
      so each appears at most once. */
  lemma SectionBlocksOrdered(node: Node, ids: seq<string>)
    ensures var cs := SectionCandidates(node, ids);
      var bs := SectionBlocks(node, ids);
      (forall i :: 0 <= i < |bs| ==> Rank(bs[i]) < BlockKinds && bs[i] == cs[Rank(bs[i])].1 && cs[Rank(bs[i])].0)
      && (forall i, j :: 0 <= i < j < |bs| ==> Rank(bs[i]) < Rank(bs[j]))
  {
    var cs := SectionCandidates(node, ids);
    var bs := SectionBlocks(node, ids);
    CandidateRanks(node, RenderOptions(node, ids));
    forall i | 0 <= i < |bs|
      ensures Rank(bs[i]) < BlockKinds && bs[i] == cs[Rank(bs[i])].1 && cs[Rank(bs[i])].0
    {
      ShownAt(cs, 0, i);
    }
    forall i, j | 0 <= i < j < |bs|
      ensures Rank(bs[i]) < Rank(bs[j])
    {
      ShownPair(cs, 0, i, j);
    }
  }

  /** A section leaves out no block it has something for. */
  lemma SectionBlocksComplete(node: Node, ids: seq<string>, m: nat)
    requires m < BlockKinds && SectionCandidates(node, ids)[m].0
    ensures SectionCandidates(node, ids)[m].1 in SectionBlocks(node, ids)
  {
    ShownHas(SectionCandidates(node, ids), 0, m);
  }

  /** The option list is always part of a section. */
  lemma OptionsAlwaysShown(node: Node, ids: seq<string>)
    ensures OptionList(RenderOptions(node, ids)) in SectionBlocks(node, ids)
  {
    var cs := SectionCandidates(node, ids);
    assert cs[6] == Candidate(node, RenderOptions(node, ids), 6) == (true, OptionList(RenderOptions(node, ids)));
    ShownHas(cs, 0, 6);
  }

  /** A list block is shown exactly when its rendering is not empty, which is
      how `render_node_section` tests it, whatever its title. */
  lemma ListBlockShown(node: Node, optionList: string, title: string)
    ensures Candidate(node, optionList, 3).0 <==> RenderListBlock(title, node.infoItems) != []
    ensures Candidate(node, optionList, 4).0 <==> RenderDetails(title, node.techFlags) != []
    ensures Candidate(node, optionList, 5).0 <==> RenderDetails(title, node.outcomes) != []
  {
    CandidateFlags(node, optionList);
    ListBlocksEmpty(title, node.infoItems);
    ListBlocksEmpty(title, node.techFlags);
    ListBlocksEmpty(title, node.outcomes);
  }

  lemma CandidateFlags(node: Node, optionList: string)
    ensures Candidate(node, optionList, 3).0 == (node.infoItems != [])
    ensures Candidate(node, optionList, 4).0 == (node.techFlags != [])
    ensures Candidate(node, optionList, 5).0 == (node.outcomes != [])
  {
  }

  /** The parts a block adds to its section. */
  function BlockParts(b: Block): seq<string> {
    match b
    case SceneLine(t) => ["  <p><strong>Szene:</strong> " + HtmlEscape(t) + "</p>"]
    case ContentLine(t) => ["  <p><strong>Inhalt:</strong> " + HtmlEscape(t) + "</p>"]
    case DialogBlock(t) =>
      ["  <p><strong>Dialog:</strong></p>", "  <blockquote>", "    <pre>", HtmlEscape(t), "    </pre>", "  </blockquote>"]
    case InfoList(items) => [RenderListBlock("Wichtige Information", items)]
    case TechDetails(items) => [RenderDetails("Technik/Flags", items)]
    case OutcomesDetails(items) => [RenderDetails("Enden/Outcomes (Notizblock)", items)]
    case OptionList(h) => [h]
    case NotesLine(t) => ["  <p><strong>Notizen:</strong> " + HtmlEscape(t) + "</p>"]
  }

  function BlocksParts(bs: seq<Block>): seq<string> {
    if bs == [] then [] else BlockParts(bs[0]) + BlocksParts(bs[1..])
  }

  function SectionOpen(node: Node): string {
    "<section id=\"" + HtmlEscape(node.nodeId) + "\">"
  }

  /** `node.title.strip() or node.node_id`, escaped, as the section heading. */
  function Heading(node: Node): string {
    var t := Strip(node.title);
    "  <h2>" + HtmlEscape(if t != [] then t else node.nodeId) + "</h2>"
  }

  const BackLink: string := "  <p>" + Link("top", "↑ Zur Übersicht") + "</p>"

  function SectionParts(node: Node, ids: seq<string>): seq<string> {
    [SectionOpen(node), Heading(node)] + BlocksParts(SectionBlocks(node, ids)) + [BackLink, "</section>"]
  }

  function RenderNodeSection(node: Node, ids: seq<string>): string {
    Join(SectionParts(node, ids), "\n    ")
  }

  /** The section opens with its anchor and heading, shows its blocks in rank
      order and closes with the link back to the overview. */
  lemma SectionLayout(node: Node, ids: seq<string>)
    ensures InOrder(RenderNodeSection(node, ids),
      [SectionOpen(node), Heading(node)] + BlocksParts(SectionBlocks(node, ids)) + [BackLink, "</section>"])
  {
    InOrderJoin(SectionParts(node, ids), "\n    ");
  }

  /** The markup every section has, whatever its node: anchor, heading and
      the link back, without any block. */
  function SectionFrame(): string {
    Join([SectionOpen(NewNode("", "")), Heading(NewNode("", "")), BackLink, "</section>"], "\n    ")
  }

  /** The anchor and the heading hold the same tags for every node. */
  lemma SectionHeadTags(node: Node)
    ensures Tags(SectionOpen(node)) == Tags(SectionOpen(NewNode("", "")))
    ensures Tags(Heading(node)) == Tags(Heading(NewNode("", "")))
  {
    var n0 := NewNode("", "");
    var t := Strip(node.title);
    var t0 := Strip(n0.title);
    EscapedTags(node.nodeId);
    EscapedTags(n0.nodeId);
    EscapedTags(if t != [] then t else node.nodeId);
    EscapedTags(if t0 != [] then t0 else n0.nodeId);
    TagsAppend3("<section id=\"", HtmlEscape(node.nodeId), "\">");
    TagsAppend3("<section id=\"", HtmlEscape(n0.nodeId), "\">");
    TagsAppend3("  <h2>", HtmlEscape(if t != [] then t else node.nodeId), "</h2>");
    TagsAppend3("  <h2>", HtmlEscape(if t0 != [] then t0 else n0.nodeId), "</h2>");
  }

  /** A section holds the fixed markup of every section plus what its blocks
      hold, and nothing else. */
  lemma SectionTags(node: Node, ids: seq<string>)
    ensures Tags(RenderNodeSection(node, ids)) == Tags(SectionFrame()) + TagsOf(BlocksParts(SectionBlocks(node, ids)))
  {
    NoTags("\n    ");
    FramedJoinTagsOf([SectionOpen(node), Heading(node)], BlocksParts(SectionBlocks(node, ids)),
      [BackLink, "</section>"], "\n    ");
    SectionFrameTags(node);
  }

  lemma SectionFrameTags(node: Node)
    ensures Tags(Join([SectionOpen(node), Heading(node)] + [BackLink, "</section>"], "\n    ")) == Tags(SectionFrame())
  {
    var n0 := NewNode("", "");
    var head, tail := [SectionOpen(node), Heading(node)], [BackLink, "</section>"];
    var head0 := [SectionOpen(n0), Heading(n0)];
    NoTags("\n    ");
    JoinTags(head + tail, "\n    ");
    JoinTags(head0 + tail, "\n    ");
    TagsOfAppend(head, tail);
    TagsOfAppend(head0, tail);
    SectionHeadTags(node);
    assert TagsOf(head) == TagsOf(head0);
    assert head0 + tail == [SectionOpen(n0), Heading(n0), BackLink, "</section>"];
  }

  /** Two blocks of one kind, with as many items when they are lists and the
      same markup when they are option lists. */
  predicate SameShape(b: Block, c: Block) {
    Rank(b) == Rank(c)
    && ((b.InfoList? || b.TechDetails? || b.OutcomesDetails?) ==> |b.items| == |c.items|)
    && (b.OptionList? ==> b.html == c.html)
  }

  /** The tags of a block depend on its shape only: text blocks add none of
      their text's, list blocks none of their titles' or items' beyond the
      `<li>` pairs (see `ListBlockTags`, `DetailsTags`). */
  lemma BlockTags(b: Block, c: Block)
    requires SameShape(b, c)
    ensures TagsOf(BlockParts(b)) == TagsOf(BlockParts(c))
  {
    if b.SceneLine? || b.ContentLine? || b.NotesLine? {
      TextBlockTags(b, c);
    } else if b.DialogBlock? {
      DialogTags(b.text);
      DialogTags(c.text);
    } else if b.InfoList? || b.TechDetails? || b.OutcomesDetails? {
      ListBlockPartsTags(b, c);
    }
  }

  lemma TextBlockTags(b: Block, c: Block)
    requires SameShape(b, c) && (b.SceneLine? || b.ContentLine? || b.NotesLine?)
    ensures TagsOf(BlockParts(b)) == TagsOf(BlockParts(c))
  {
    var lead := if b.SceneLine? then "  <p><strong>Szene:</strong> "
      else if b.ContentLine? then "  <p><strong>Inhalt:</strong> "
      else "  <p><strong>Notizen:</strong> ";
    assert BlockParts(b) == [lead + HtmlEscape(b.text) + "</p>"];
    assert BlockParts(c) == [lead + HtmlEscape(c.text) + "</p>"];
    TextLineTags(lead, b.text);
    TextLineTags(lead, c.text);
    SingleTags(lead + HtmlEscape(b.text) + "</p>", lead + HtmlEscape(c.text) + "</p>");
  }

  lemma ListBlockPartsTags(b: Block, c: Block)
    requires SameShape(b, c) && (b.InfoList? || b.TechDetails? || b.OutcomesDetails?)
    ensures TagsOf(BlockParts(b)) == TagsOf(BlockParts(c))
  {
    if b.InfoList? {
      InfoListTags(b.items, c.items);
    } else if b.TechDetails? {
      TechDetailsTags(b.items, c.items);
    } else {
      OutcomesTags(b.items, c.items);
    }
  }

  lemma InfoListTags(a: seq<string>, b: seq<string>)
    requires |a| == |b|
    ensures TagsOf(BlockParts(InfoList(a))) == TagsOf(BlockParts(InfoList(b)))
  {
    var title := "Wichtige Information";
    SameCountListTags(title, a, b);
    SingleTags(RenderListBlock(title, a), RenderListBlock(title, b));
  }

  lemma TechDetailsTags(a: seq<string>, b: seq<string>)
    requires |a| == |b|
    ensures TagsOf(BlockParts(TechDetails(a))) == TagsOf(BlockParts(TechDetails(b)))
  {
    var title := "Technik/Flags";
    SameCountDetailsTags(title, a, b);
    SingleTags(RenderDetails(title, a), RenderDetails(title, b));
  }

  lemma OutcomesTags(a: seq<string>, b: seq<string>)
    requires |a| == |b|
    ensures TagsOf(BlockParts(OutcomesDetails(a))) == TagsOf(BlockParts(OutcomesDetails(b)))
  {
    var title := "Enden/Outcomes (Notizblock)";
    SameCountDetailsTags(title, a, b);
    SingleTags(RenderDetails(title, a), RenderDetails(title, b));
  }

  lemma SameCountListTags(title: string, a: seq<string>, b: seq<string>)
    requires |a| == |b|
    ensures Tags(RenderListBlock(title, a)) == Tags(RenderListBlock(title, b))
  {
    if a != [] {
      ListBlockFrame(title, a);
      ListBlockFrame(title, b);
    }
  }

  lemma SameCountDetailsTags(title: string, a: seq<string>, b: seq<string>)
    requires |a| == |b|
    ensures Tags(RenderDetails(title, a)) == Tags(RenderDetails(title, b))
  {
    if a != [] {
      DetailsFrame(title, a);
      DetailsFrame(title, b);
    }
  }

  lemma DialogTags(t: string)
    ensures TagsOf(BlockParts(DialogBlock(t))) == TagsOf(BlockParts(DialogBlock("")))
  {
    var pre := ["  <p><strong>Dialog:</strong></p>", "  <blockquote>", "    <pre>"];
    var post := ["    </pre>", "  </blockquote>"];
    EscapedTags(t);
    EscapedTags("");
    TagsOfAppend(pre + [HtmlEscape(t)], post);
    TagsOfAppend(pre, [HtmlEscape(t)]);
    TagsOfAppend(pre + [HtmlEscape("")], post);
    TagsOfAppend(pre, [HtmlEscape("")]);
    assert BlockParts(DialogBlock(t)) == pre + [HtmlEscape(t)] + post;
    assert BlockParts(DialogBlock("")) == pre + [HtmlEscape("")] + post;
  }

  lemma TextLineTags(lead: string, t: string)
    ensures Tags(lead + HtmlEscape(t) + "</p>") == Tags(lead + HtmlEscape("") + "</p>")
  {
    EscapedTags(t);
    EscapedTags("");
    TagsAppend3(lead, HtmlEscape(t), "</p>");
    TagsAppend3(lead, HtmlEscape(""), "</p>");
  }

  // --------------------------------------------------------------- render_html

  /** `meta.version_stamp.strip() or now_stamp()`, with the clock reading given. */
  function VersionText(meta: QuestMeta, now: string): string {
    var v := Strip(meta.versionStamp);
    if v == [] then now else v
  }

  /** The anchor the "to the start" link of the overview points at. */
  function StartTarget(nodes: seq<Node>): string {
    HtmlEscape(if nodes != [] then nodes[0].nodeId else "top")
  }

  const TopOpen: string := "<section id=\"top\">"

  /** The overview between its anchor and the link to the first node. */
  function TopBody(meta: QuestMeta): string {
    "\n      <h2>Übersicht</h2>\n      <p><strong>Kurzbeschreibung:</strong> "
    + HtmlEscape(OrDash(meta.shortDescription))
    + "</p>\n      <p><strong>Quest Metadaten</strong></p>\n      <ul>\n        "
    + RenderMetaList(meta)
    + "\n      </ul>\n      <hr>\n      <p>"
  }

  function StartLink(nodes: seq<Node>): string {
    Link(StartTarget(nodes), "→ Zum Start")
  }

  const TopClose: string := "</p>\n    </section>"

  /** The overview section; the template's trailing `rstrip()` leaves it ending in `</section>`. */
  function TopSection(meta: QuestMeta, nodes: seq<Node>): string {
    "\n    " + TopOpen + TopBody(meta) + StartLink(nodes) + TopClose
  }

  function Sections(nodes: seq<Node>): seq<string> {
    var ids := NodeIds(nodes);
    seq(|nodes|, i requires 0 <= i < |nodes| => RenderNodeSection(nodes[i], ids))
  }

  /** The document up to the navigation. */
  function DocHead(meta: QuestMeta): string {
    "<!doctype html>\n<html lang=\"de\">\n<head>\n  <meta charset=\"utf-8\" />\n"
    + "  <meta name=\"viewport\" content=\"width=device-width,initial-scale=1\" />\n  <title>"
    + HtmlEscape(Strip("Quest-Präsentator: " + meta.questName)) + "</title>\n"
    + CssBlock + "\n</head>\n<body>\n\n  <header>\n    <h1>Quest: " + HtmlEscape(OrDash(meta.questName))
    + "</h1>\n    <p><strong>Region:</strong> " + HtmlEscape(OrDash(meta.region)) + "</p>\n    "
  }

  const HeaderClose: string := "\n    <hr>\n  </header>\n\n  <main>\n"

  const EndOpen: string := "<section id=\"end\">"

  const EndBody: string :=
    "\n      <h2>Ende / Notizen</h2>\n      <p>[Hier kannst du „Was der Spieler gelernt hat“, "
    + "„Welche Weltinfos gesetzt wurden“ und „Follow-ups“ reinschreiben.]</p>\n      <p>"
    + Link("top", "↑ Zur Übersicht") + "</p>\n    </section>\n  </main>\n\n"

  const EndSection: string := "\n\n    " + EndOpen + EndBody

  function FooterLine(version: string): string {
    "<p><small>Quest-Präsentator — Stand: " + HtmlEscape(version) + "</small></p>"
  }

  const FooterOpen: string := "  <footer>\n    <hr>\n    "
  const FooterClose: string := "\n  </footer>\n\n"

  function Footer(version: string): string {
    FooterOpen + FooterLine(version) + FooterClose
  }

  const DocTail: string := "\n\n</body>\n</html>\n"

  /** Everything before the place of the script block. */
  function BeforeScript(p: QuestProject, now: string): string {
    DocHead(p.meta) + RenderNav(p.nodes) + HeaderClose + TopSection(p.meta, p.nodes)
    + "\n\n    " + Join(Sections(p.nodes), "\n\n    ") + EndSection + Footer(VersionText(p.meta, now))
  }

  /** The whole page; the script block only with `includeJs`. */
  function RenderHtml(p: QuestProject, includeJs: bool, now: string): string {
    BeforeScript(p, now) + (if includeJs then JsBlock else "") + DocTail
  }

  /** `with` is `without` with `mid` inserted at one place. */
  ghost predicate IsInsertion(with: string, without: string, mid: string) {
    |with| == |without| + |mid|
    && exists k :: 0 <= k <= |without| && with == without[..k] + mid + without[k..]
  }

  /** The page with the script is the page without it, with the script block
      inserted at one place. */
  lemma ScriptOnlyWhenAsked(p: QuestProject, now: string)
    ensures IsInsertion(RenderHtml(p, true, now), RenderHtml(p, false, now), JsBlock)
  {
    Insertion(BeforeScript(p, now), JsBlock, DocTail);
  }

  lemma Insertion(pre: string, mid: string, post: string)
    ensures IsInsertion(pre + mid + post, pre + "" + post, mid)
  {
    var without := pre + "" + post;
    assert without[..|pre|] == pre && without[|pre|..] == post;
  }

  /** With a version stamp the page does not depend on the clock. */
  lemma StampedPageIgnoresClock(p: QuestProject, js: bool, now1: string, now2: string)
    requires Strip(p.meta.versionStamp) != []
    ensures RenderHtml(p, js, now1) == RenderHtml(p, js, now2)
  {
  }

  /** The pieces a reader finds in the page, in this order. */
  function PageOutline(p: QuestProject, now: string): seq<string> {
    [NavTopLink] + NavLinks(p.nodes)
    + [TopOpen, StartLink(p.nodes)]
    + SectionOpens(p.nodes)
    + [EndOpen] + [FooterLine(VersionText(p.meta, now))]
  }

  function SectionOpens(nodes: seq<Node>): seq<string> {
    seq(|nodes|, i requires 0 <= i < |nodes| => SectionOpen(nodes[i]))
  }

  /** The page shows, in this order: the overview link and one navigation link
      per node, the overview section with its link to the first node, one
      section per node in node order, the closing section and the version line;
      with or without the script. */
  lemma PageLayout(p: QuestProject, js: bool, now: string)
    ensures InOrder(RenderHtml(p, js, now), PageOutline(p, now))
  {
    PageParts(p, if js then JsBlock else "", now);
  }

  /** The page's parts put together around any script text. */
  lemma PageParts(p: QuestProject, script: string, now: string)
    ensures InOrder(DocHead(p.meta) + RenderNav(p.nodes) + HeaderClose + TopSection(p.meta, p.nodes)
                    + "\n\n    " + Join(Sections(p.nodes), "\n\n    ") + EndSection
                    + Footer(VersionText(p.meta, now)) + script + DocTail,
                    [NavTopLink] + NavLinks(p.nodes) + [TopOpen, StartLink(p.nodes)] + SectionOpens(p.nodes)
                    + [EndOpen] + [FooterLine(VersionText(p.meta, now))])
  {
    var version := VersionText(p.meta, now);
    PageComponents(p, now);
    Assemble(DocHead(p.meta), RenderNav(p.nodes), HeaderClose, TopSection(p.meta, p.nodes),
      Join(Sections(p.nodes), "\n\n    "), EndSection, Footer(version), script, DocTail,
      [NavTopLink] + NavLinks(p.nodes), [TopOpen, StartLink(p.nodes)], SectionOpens(p.nodes),
      [EndOpen], [FooterLine(version)]);
  }

  /** Each part of the page holds its own pieces of the outline. */
  lemma PageComponents(p: QuestProject, now: string)
    ensures InOrder(RenderNav(p.nodes), [NavTopLink] + NavLinks(p.nodes))
    ensures InOrder(TopSection(p.meta, p.nodes), [TopOpen, StartLink(p.nodes)])
    ensures InOrder(Join(Sections(p.nodes), "\n\n    "), SectionOpens(p.nodes))
    ensures InOrder(EndSection, [EndOpen])
    ensures InOrder(Footer(VersionText(p.meta, now)), [FooterLine(VersionText(p.meta, now))])
  {
    NavPieces(p.nodes);
    TopPieces(p.meta, p.nodes);
    SectionPieces(p.nodes);
    InOrderMiddle("\n\n    ", EndOpen, EndBody);
    InOrderMiddle(FooterOpen, FooterLine(VersionText(p.meta, now)), FooterClose);
  }

  lemma NavPieces(nodes: seq<Node>)
    ensures InOrder(RenderNav(nodes), [NavTopLink] + NavLinks(nodes))
  {
    var nav := RenderNav(nodes);
    var mid := [NavTopLink] + NavLinks(nodes);
    NavLayout(nodes);
    assert [NavOpen, NavTopLink] + NavLinks(nodes) + ["</nav>"] == [NavOpen] + mid + ["</nav>"];
    InOrderPrefix(nav, [NavOpen] + mid, ["</nav>"]);
    InOrderSuffix(nav, [NavOpen], mid);
  }

  lemma TopPieces(meta: QuestMeta, nodes: seq<Node>)
    ensures InOrder(TopSection(meta, nodes), [TopOpen, StartLink(nodes)])
  {
    InOrderTwo("\n    ", TopOpen, TopBody(meta), StartLink(nodes), TopClose);
  }

  lemma InOrderTwo(a: string, x: string, b: string, y: string, c: string)
    ensures InOrder(a + x + b + y + c, [x, y])
  {
    InOrderMiddle(a, x, b);
    InOrderMiddle([], y, c);
    InOrderConcat(a + x + b, [] + y + c, [x], [y]);
    assert a + x + b + ([] + y + c) == a + x + b + y + c;
    assert [x] + [y] == [x, y];
  }

  lemma SectionPieces(nodes: seq<Node>)
    ensures InOrder(Join(Sections(nodes), "\n\n    "), SectionOpens(nodes))
  {
    forall i | 0 <= i < |nodes|
      ensures InOrder(Sections(nodes)[i], [SectionOpens(nodes)[i]])
    {
      SectionLayout(nodes[i], NodeIds(nodes));
      InOrderFirst(Sections(nodes)[i], SectionParts(nodes[i], NodeIds(nodes)));
    }
    InOrderJoinEach(Sections(nodes), "\n\n    ", SectionOpens(nodes));
  }

  /** Chains the pieces of the page's parts into the pieces of the page. */
  lemma Assemble(head: string, nav: string, hc: string, top: string, secs: string, end: string,
                 foot: string, js: string, tail: string,
                 l1: seq<string>, l2: seq<string>, l3: seq<string>, l4: seq<string>, l5: seq<string>)
    requires InOrder(nav, l1) && InOrder(top, l2) && InOrder(secs, l3)
    requires InOrder(end, l4) && InOrder(foot, l5)
    ensures InOrder(head + nav + hc + top + "\n\n    " + secs + end + foot + js + tail, l1 + l2 + l3 + l4 + l5)
  {
    InOrderPrepend(head, nav, l1);
    InOrderAppend(head + nav, hc, l1);
    InOrderConcat(head + nav + hc, top, l1, l2);
    InOrderAppend(head + nav + hc + top, "\n\n    ", l1 + l2);
    InOrderConcat(head + nav + hc + top + "\n\n    ", secs, l1 + l2, l3);
    InOrderConcat(head + nav + hc + top + "\n\n    " + secs, end, l1 + l2 + l3, l4);
    InOrderConcat(head + nav + hc + top + "\n\n    " + secs + end, foot, l1 + l2 + l3 + l4, l5);
    InOrderAppend(head + nav + hc + top + "\n\n    " + secs + end + foot, js, l1 + l2 + l3 + l4 + l5);
    InOrderAppend(head + nav + hc + top + "\n\n    " + secs + end + foot + js, tail, l1 + l2 + l3 + l4 + l5);
  }
}
