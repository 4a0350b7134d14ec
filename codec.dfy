/**
 * The project codec: `option_to_dict`, `option_from_dict`,
 * `project_to_jsonable`, `project_from_jsonable`, and the fallback start node
 * that loading adds to a project without nodes. Dictionaries and lists are
 * modelled as a JSON value; turning that value into text is not part of the
 * model.
 */
module Codec {
  import opened QuestModel

  /** A JSON value as `json.load` returns it (numbers are integers here). */
  datatype Json =
    | JNull
    | JBool(b: bool)
    | JNum(n: int)
    | JStr(s: string)
    | JArr(items: seq<Json>)
    | JObj(fields: map<string, Json>)

  /** Where decoding met a value of the wrong shape. */
  datatype DecodeError =
    | NotAnObject(context: string)  // `.get` called on something that is not a dict
    | NotIterable(context: string)  // `for x in v` over something that is not a list
    | WrongType(key: string)        // a field that should hold a string or a list of strings

  datatype Result<T> = Ok(value: T) | Err(error: DecodeError)

  /** Python truthiness, as used by `v or []`. */
  predicate Truthy(j: Json) {
    match j
    case JNull => false
    case JBool(b) => b
    case JNum(n) => n != 0
    case JStr(s) => s != []
    case JArr(a) => a != []
    case JObj(m) => m != map[]
  }

  /** `d.get(key, default)` */
  function Get(m: map<string, Json>, key: string, default: Json): Json {
    if key in m then m[key] else default
  }

  // ---------------------------------------------------------------------------
  // Encoding
  // ---------------------------------------------------------------------------

  function EncodeStrings(xs: seq<string>): (j: seq<Json>)
    ensures |j| == |xs|
  {
    seq(|xs|, i requires 0 <= i < |xs| => JStr(xs[i]))
  }

  /** `option_to_dict` */
  function EncodeOption(o: Option): Json {
    JObj(map["label" := JStr(o.labelText), "target" := JStr(o.target)])
  }

  function EncodeOptions(os: seq<Option>): (j: seq<Json>)
    ensures |j| == |os|
  {
    seq(|os|, i requires 0 <= i < |os| => EncodeOption(os[i]))
  }

  /** One entry of the "nodes" list of `project_to_jsonable`: every field of
      `asdict(n)`, with the options written by `option_to_dict`. */
  function EncodeNode(n: Node): Json {
    JObj(map[
      "node_id" := JStr(n.nodeId),
      "title" := JStr(n.title),
      "scene" := JStr(n.scene),
      "dialog" := JStr(n.dialog),
      "content" := JStr(n.content),
      "info_items" := JArr(EncodeStrings(n.infoItems)),
      "tech_flags" := JArr(EncodeStrings(n.techFlags)),
      "outcomes" := JArr(EncodeStrings(n.outcomes)),
      "notes" := JStr(n.notes),
      "options" := JArr(EncodeOptions(n.options))])
  }

  function EncodeNodes(ns: seq<Node>): (j: seq<Json>)
    ensures |j| == |ns|
  {
    seq(|ns|, i requires 0 <= i < |ns| => EncodeNode(ns[i]))
  }

  /** `asdict(meta)` */
  function EncodeMeta(m: QuestMeta): Json {
    JObj(map[
      "quest_name" := JStr(m.questName),
      "region" := JStr(m.region),
      "short_description" := JStr(m.shortDescription),
      "quest_giver" := JStr(m.questGiver),
      "prerequisite" := JStr(m.prerequisite),
      "quest_type" := JStr(m.questType),
      "meta_short" := JStr(m.metaShort),
      "rewards" := JStr(m.rewards),
      "important_flags" := JStr(m.importantFlags),
      "version_stamp" := JStr(m.versionStamp)])
  }

  /** `project_to_jsonable` */
  function EncodeProject(p: QuestProject): Json {
    JObj(map["meta" := EncodeMeta(p.meta), "nodes" := JArr(EncodeNodes(p.nodes))])
  }

  // ---------------------------------------------------------------------------
  // Decoding
  // ---------------------------------------------------------------------------

  /** The value `for x in v` walks over. A non-empty dict or string is walked
      too, but its entries are strings, on which the following `.get` fails. */
  function Iterate(v: Json, context: string): (r: Result<seq<Json>>)
    ensures r.Ok? ==> (v.JArr? && r.value == v.items) || r.value == []
    ensures v.JArr? ==> r == Ok(v.items)
    ensures (v == JObj(map[]) || v == JStr([])) ==> r == Ok([])
    ensures r.Ok? <==> (v.JArr? || v == JObj(map[]) || v == JStr([]))
  {
    match v
    case JArr(a) => Ok(a)
    case JObj(m) => if m == map[] then Ok([]) else Err(NotAnObject(context))
    case JStr(s) => if s == [] then Ok([]) else Err(NotAnObject(context))
    case _ => Err(NotIterable(context))
  }

  /** A string field read with `d.get(key, default)`. */
  function StringField(m: map<string, Json>, key: string, default: string): (r: Result<string>)
    ensures key !in m ==> r == Ok(default)
  {
    match Get(m, key, JStr(default))
    case JStr(s) => Ok(s)
    case _ => Err(WrongType(key))
  }

  function DecodeStrings(items: seq<Json>, key: string): (r: Result<seq<string>>)
    ensures r.Ok? ==> |r.value| == |items|
    ensures r.Ok? ==> forall i :: 0 <= i < |items| ==> items[i] == JStr(r.value[i])
    ensures r.Err? ==> exists i :: 0 <= i < |items| && !items[i].JStr?
  {
    if items == [] then Ok([])
    else if !items[0].JStr? then Err(WrongType(key))
    else
      match DecodeStrings(items[1..], key)
      case Err(e) => Err(e)
      case Ok(rest) => Ok([items[0].s] + rest)
  }

  /** A list field read with `d.get(key, []) or []`: a missing or falsy value
      gives the empty list. */
  function StringListField(m: map<string, Json>, key: string): (r: Result<seq<string>>)
    ensures (key !in m || !Truthy(m[key])) ==> r == Ok([])
  {
    var v := Get(m, key, JArr([]));
    if !Truthy(v) then Ok([])
    else if v.JArr? then DecodeStrings(v.items, key)
    else Err(WrongType(key))
  }

  /** `option_from_dict` */
  function DecodeOption(j: Json): Result<Option> {
    match j
    case JObj(m) =>
      (match (StringField(m, "label", ""), StringField(m, "target", ""))
       case (Ok(l), Ok(t)) => Ok(Option(l, t))
       case (Err(e), _) => Err(e)
       case (_, Err(e)) => Err(e))
    case _ => Err(NotAnObject("option"))
  }

  /** `[option_from_dict(o) for o in items]`: every option in order, or the
      first failure. */
  function DecodeOptions(items: seq<Json>): (r: Result<seq<Option>>)
    ensures r.Ok? <==> forall i :: 0 <= i < |items| ==> DecodeOption(items[i]).Ok?
    ensures r.Ok? ==> |r.value| == |items|
    ensures r.Ok? ==> forall i :: 0 <= i < |items| ==> r.value[i] == DecodeOption(items[i]).value
  {
    if items == [] then Ok([])
    else
      match (DecodeOption(items[0]), DecodeOptions(items[1..]))
      case (Ok(o), Ok(rest)) =>
        assert forall i :: 0 < i < |items| ==> items[i] == items[1..][i - 1];
        Ok([o] + rest)
      case (Err(e), _) => Err(e)
      case (_, Err(e)) =>
        assert forall i :: 0 <= i < |items| - 1 ==> items[1..][i] == items[i + 1];
        Err(e)
  }

  /** `[option_from_dict(o) for o in (d.get("options", []) or [])]` */
  function OptionsField(m: map<string, Json>): (r: Result<seq<Option>>)
    ensures ("options" !in m || !Truthy(m["options"])) ==> r == Ok([])
  {
    var v := Get(m, "options", JArr([]));
    if !Truthy(v) then Ok([])
    else match Iterate(v, "options")
      case Ok(items) => DecodeOptions(items)
      case Err(e) => Err(e)
  }

  /** The `Node(...)` built for one entry of the "nodes" list, with the
      defaults of `project_from_jsonable` for missing keys. */
  function DecodeNode(j: Json): Result<Node> {
    match j
    case JObj(m) =>
      var nodeId := StringField(m, "node_id", "node");
      var title := StringField(m, "title", "");
      var scene := StringField(m, "scene", "");
      var dialog := StringField(m, "dialog", "");
      var content := StringField(m, "content", "");
      var info := StringListField(m, "info_items");
      var tech := StringListField(m, "tech_flags");
      var outcomes := StringListField(m, "outcomes");
      var notes := StringField(m, "notes", "");
      var opts := OptionsField(m);
      if nodeId.Err? then Err(nodeId.error)
      else if title.Err? then Err(title.error)
      else if scene.Err? then Err(scene.error)
      else if dialog.Err? then Err(dialog.error)
      else if content.Err? then Err(content.error)
      else if info.Err? then Err(info.error)
      else if tech.Err? then Err(tech.error)
      else if outcomes.Err? then Err(outcomes.error)
      else if notes.Err? then Err(notes.error)
      else if opts.Err? then Err(opts.error)
      else Ok(Node(nodeId.value, title.value, scene.value, dialog.value, content.value,
                   info.value, tech.value, outcomes.value, notes.value, opts.value))
    case _ => Err(NotAnObject("node"))
  }

  /** The loop over the "nodes" list: every node in order, or the first failure. */
  function DecodeNodes(items: seq<Json>): (r: Result<seq<Node>>)
    ensures r.Ok? <==> forall i :: 0 <= i < |items| ==> DecodeNode(items[i]).Ok?
    ensures r.Ok? ==> |r.value| == |items|
    ensures r.Ok? ==> forall i :: 0 <= i < |items| ==> r.value[i] == DecodeNode(items[i]).value
  {
    if items == [] then Ok([])
    else
      match (DecodeNode(items[0]), DecodeNodes(items[1..]))
      case (Ok(n), Ok(rest)) =>
        assert forall i :: 0 < i < |items| ==> items[i] == items[1..][i - 1];
        Ok([n] + rest)
      case (Err(e), _) => Err(e)
      case (_, Err(e)) =>
        assert forall i :: 0 <= i < |items| - 1 ==> items[1..][i] == items[i + 1];
        Err(e)
  }

  /** The metadata keys, in the order of the `QuestMeta` fields. */
  const MetaKeys: seq<string> := [
    "quest_name", "region", "short_description", "quest_giver", "prerequisite",
    "quest_type", "meta_short", "rewards", "important_flags", "version_stamp"]

  /** `{k: meta_d.get(k, "") for k in keys}`: every value, or the first failure. */
  function MetaValues(m: map<string, Json>, keys: seq<string>): (r: Result<seq<string>>)
    ensures r.Ok? <==> forall i :: 0 <= i < |keys| ==> StringField(m, keys[i], "").Ok?
    ensures r.Ok? ==> |r.value| == |keys|
    ensures r.Ok? ==> forall i :: 0 <= i < |keys| ==> StringField(m, keys[i], "") == Ok(r.value[i])
  {
    if keys == [] then Ok([])
    else
      match (StringField(m, keys[0], ""), MetaValues(m, keys[1..]))
      case (Ok(v), Ok(rest)) =>
        assert forall i :: 0 < i < |keys| ==> keys[i] == keys[1..][i - 1];
        Ok([v] + rest)
      case (Err(e), _) => Err(e)
      case (_, Err(e)) =>
        assert forall i :: 0 <= i < |keys| - 1 ==> keys[1..][i] == keys[i + 1];
        Err(e)
  }

  /** `QuestMeta(**{k: meta_d.get(k, "") for k in ...})`: every missing key
      gives "" (not the dataclass default). */
  function DecodeMeta(j: Json): Result<QuestMeta> {
    match j
    case JObj(m) =>
      (match MetaValues(m, MetaKeys)
       case Ok(f) =>
         Ok(QuestMeta(f[0], f[1], f[2], f[3], f[4], f[5], f[6], f[7], f[8], f[9]))
       case Err(e) => Err(e))
    case _ => Err(NotAnObject("meta"))
  }

  /** `project_from_jsonable` */
  function DecodeProject(j: Json): Result<QuestProject> {
    match j
    case JObj(m) =>
      (match (DecodeMeta(Get(m, "meta", JObj(map[]))), Iterate(Get(m, "nodes", JArr([])), "nodes"))
       case (Err(e), _) => Err(e)
       case (_, Err(e)) => Err(e)
       case (Ok(meta), Ok(items)) =>
         match DecodeNodes(items)
         case Ok(nodes) => Ok(QuestProject(meta, nodes))
         case Err(e) => Err(e))
    case _ => Err(NotAnObject("project"))
  }

  /** The node `_load_project` adds when the file holds no nodes. */
  function StartNode(): Node {
    NewNode("start", "Start")
  }

  /** What `_load_project` installs: the decoded project, with a `start` node
      added when the decoded node list is empty. */
  function LoadProject(j: Json): (r: Result<QuestProject>)
    ensures r.Ok? <==> DecodeProject(j).Ok?
    ensures r.Ok? ==> |r.value.nodes| >= 1 && r.value.meta == DecodeProject(j).value.meta
    ensures r.Ok? && DecodeProject(j).value.nodes != [] ==> r == DecodeProject(j)
    ensures r.Ok? && DecodeProject(j).value.nodes == [] ==> r.value.nodes == [StartNode()]
  {
    match DecodeProject(j)
    case Ok(p) => if p.nodes == [] then Ok(QuestProject(p.meta, [StartNode()])) else Ok(p)
    case Err(e) => Err(e)
  }

  // ---------------------------------------------------------------------------
  // Round trip
  // ---------------------------------------------------------------------------

  lemma {:induction false} DecodeEncodeStrings(xs: seq<string>, key: string)
    ensures DecodeStrings(EncodeStrings(xs), key) == Ok(xs)
  {
    var r := DecodeStrings(EncodeStrings(xs), key);
    assert r.Ok?;
    assert r.value == xs;
  }

  lemma StringListRoundTrip(xs: seq<string>, key: string)
    ensures StringListField(map[key := JArr(EncodeStrings(xs))], key) == Ok(xs)
  {
    DecodeEncodeStrings(xs, key);
  }

  lemma OptionRoundTrip(o: Option)
    ensures DecodeOption(EncodeOption(o)) == Ok(o)
  {
  }

  lemma OptionsRoundTrip(os: seq<Option>)
    ensures DecodeOptions(EncodeOptions(os)) == Ok(os)
  {
    var items := EncodeOptions(os);
    forall i | 0 <= i < |items|
      ensures DecodeOption(items[i]) == Ok(os[i])
    {
      OptionRoundTrip(os[i]);
    }
    var r := DecodeOptions(items);
    assert r.Ok?;
    assert r.value == os;
  }

  /** Decoding an encoded node gives back the same node, field for field. */
  lemma NodeRoundTrip(n: Node)
    ensures DecodeNode(EncodeNode(n)) == Ok(n)
  {
    NodeTextFieldsRoundTrip(n);
    NodeMoreTextFieldsRoundTrip(n);
    NodeListFieldsRoundTrip(n);
    NodeOptionsFieldRoundTrip(n);
  }

  lemma ListFieldRoundTrip(m: map<string, Json>, key: string, xs: seq<string>)
    requires key in m && m[key] == JArr(EncodeStrings(xs))
    ensures StringListField(m, key) == Ok(xs)
  {
    DecodeEncodeStrings(xs, key);
  }

  lemma NodeTextFieldsRoundTrip(n: Node)
    ensures var m := EncodeNode(n).fields;
      && StringField(m, "node_id", "node") == Ok(n.nodeId)
      && StringField(m, "title", "") == Ok(n.title)
      && StringField(m, "scene", "") == Ok(n.scene)
  {
  }

  lemma NodeMoreTextFieldsRoundTrip(n: Node)
    ensures var m := EncodeNode(n).fields;
      && StringField(m, "dialog", "") == Ok(n.dialog)
      && StringField(m, "content", "") == Ok(n.content)
      && StringField(m, "notes", "") == Ok(n.notes)
  {
  }

  lemma NodeListFieldsRoundTrip(n: Node)
    ensures var m := EncodeNode(n).fields;
      && StringListField(m, "info_items") == Ok(n.infoItems)
      && StringListField(m, "tech_flags") == Ok(n.techFlags)
      && StringListField(m, "outcomes") == Ok(n.outcomes)
  {
    var m := EncodeNode(n).fields;
    ListFieldRoundTrip(m, "info_items", n.infoItems);
    ListFieldRoundTrip(m, "tech_flags", n.techFlags);
    ListFieldRoundTrip(m, "outcomes", n.outcomes);
  }

  lemma NodeOptionsFieldRoundTrip(n: Node)
    ensures OptionsField(EncodeNode(n).fields) == Ok(n.options)
  {
    var m := EncodeNode(n).fields;
    assert m["options"] == JArr(EncodeOptions(n.options));
    OptionsRoundTrip(n.options);
  }

  /** The field values of the metadata, in the order of `MetaKeys`. */
  function MetaFieldValues(meta: QuestMeta): seq<string> {
    [meta.questName, meta.region, meta.shortDescription, meta.questGiver,
     meta.prerequisite, meta.questType, meta.metaShort, meta.rewards,
     meta.importantFlags, meta.versionStamp]
  }

  lemma MetaLookups(meta: QuestMeta)
    ensures var m := EncodeMeta(meta).fields;
      forall i :: 0 <= i < |MetaKeys| ==> StringField(m, MetaKeys[i], "") == Ok(MetaFieldValues(meta)[i])
  {
  }

  lemma MetaRoundTrip(meta: QuestMeta)
    ensures DecodeMeta(EncodeMeta(meta)) == Ok(meta)
  {
    var m := EncodeMeta(meta).fields;
    MetaLookups(meta);
    var r := MetaValues(m, MetaKeys);
    assert r.Ok?;
    assert r.value == MetaFieldValues(meta);
  }

  /** `project_from_jsonable(project_to_jsonable(p))` is `p` again: the same
      metadata, the same nodes in the same order, each with its options in
      the same order. */
  lemma ProjectRoundTrip(p: QuestProject)
    ensures DecodeProject(EncodeProject(p)) == Ok(p)
  {
    NodesRoundTrip(p.nodes);
    MetaRoundTrip(p.meta);
    ProjectFields(p);
  }

  lemma ProjectFields(p: QuestProject)
    ensures Get(EncodeProject(p).fields, "meta", JObj(map[])) == EncodeMeta(p.meta)
    ensures Get(EncodeProject(p).fields, "nodes", JArr([])) == JArr(EncodeNodes(p.nodes))
  {
  }

  lemma NodesRoundTrip(ns: seq<Node>)
    ensures DecodeNodes(EncodeNodes(ns)) == Ok(ns)
  {
    var items := EncodeNodes(ns);
    forall i | 0 <= i < |items|
      ensures DecodeNode(items[i]) == Ok(ns[i])
    {
      NodeRoundTrip(ns[i]);
    }
    var r := DecodeNodes(items);
    assert r.Ok?;
    assert r.value == ns;
  }

  /** Saving a project that has nodes and loading the result gives it back
      unchanged; the start-node fallback does not fire. */
  lemma SaveLoadRoundTrip(p: QuestProject)
    requires |p.nodes| >= 1
    ensures LoadProject(EncodeProject(p)) == Ok(p)
  {
    ProjectRoundTrip(p);
  }

  /** Every missing key takes its default: "" for strings and metadata,
      [] for lists and options, "node" for the node id. */
  lemma MissingNodeKeys(m: map<string, Json>)
    requires DecodeNode(JObj(m)).Ok?
    ensures var n := DecodeNode(JObj(m)).value;
      && ("node_id" !in m ==> n.nodeId == "node")
      && ("title" !in m ==> n.title == "")
      && ("scene" !in m ==> n.scene == "")
      && ("dialog" !in m ==> n.dialog == "")
      && ("content" !in m ==> n.content == "")
      && ("info_items" !in m ==> n.infoItems == [])
      && ("tech_flags" !in m ==> n.techFlags == [])
      && ("outcomes" !in m ==> n.outcomes == [])
      && ("notes" !in m ==> n.notes == "")
      && ("options" !in m ==> n.options == [])
  {
  }

  lemma MissingMetaKeys(m: map<string, Json>)
    requires DecodeMeta(JObj(m)).Ok?
    ensures var meta := DecodeMeta(JObj(m)).value;
      && ("quest_name" !in m ==> meta.questName == "")
      && ("region" !in m ==> meta.region == "")
      && ("short_description" !in m ==> meta.shortDescription == "")
      && ("quest_giver" !in m ==> meta.questGiver == "")
      && ("prerequisite" !in m ==> meta.prerequisite == "")
      && ("quest_type" !in m ==> meta.questType == "")
      && ("meta_short" !in m ==> meta.metaShort == "")
      && ("rewards" !in m ==> meta.rewards == "")
      && ("important_flags" !in m ==> meta.importantFlags == "")
      && ("version_stamp" !in m ==> meta.versionStamp == "")
  {
  }

  /** An empty document loads as a project with empty metadata and the single
      fallback `start` node. */
  lemma EmptyDocumentLoads()
    ensures LoadProject(JObj(map[])) ==
      Ok(QuestProject(EmptyMeta(), [StartNode()]))
  {
    EmptyDocumentDecodes();
  }

  /** The metadata every key of which is missing. */
  function EmptyMeta(): QuestMeta {
    QuestMeta("", "", "", "", "", "", "", "", "", "")
  }

  lemma EmptyDocumentDecodes()
    ensures DecodeProject(JObj(map[])) == Ok(QuestProject(EmptyMeta(), []))
  {
    EmptyMetaDecodes();
  }

  lemma EmptyMetaDecodes()
    ensures DecodeMeta(JObj(map[])) == Ok(EmptyMeta())
  {
    NoMetaKeys(map[]);
  }

  /** Metadata without any of the keys decodes to all-empty fields. */
  lemma NoMetaKeys(m: map<string, Json>)
    requires forall i :: 0 <= i < |MetaKeys| ==> MetaKeys[i] !in m
    ensures DecodeMeta(JObj(m)) == Ok(EmptyMeta())
  {
    var r := MetaValues(m, MetaKeys);
    assert r.Ok?;
    assert forall i :: 0 <= i < |r.value| ==> r.value[i] == "";
  }
}
