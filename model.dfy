/**
 * The quest data model: the dataclasses `Option`, `Node`, `QuestMeta` and
 * `QuestProject`, and the facts about node ids that the editor and the
 * export rely on.
 */
module QuestModel {

  /** One outgoing choice of a node: a label (`label`; the word is reserved in
      Dafny) and the id of the node it leads to
      (or "top"/"end", or an id no node has yet). */
  datatype Option = Option(labelText: string, target: string)

  datatype Node = Node(
    nodeId: string,
    title: string,
    scene: string,
    dialog: string,
    content: string,
    infoItems: seq<string>,
    techFlags: seq<string>,
    outcomes: seq<string>,
    notes: string,
    options: seq<Option>)

  datatype QuestMeta = QuestMeta(
    questName: string,
    region: string,
    shortDescription: string,
    questGiver: string,
    prerequisite: string,
    questType: string,
    metaShort: string,
    rewards: string,
    importantFlags: string,
    versionStamp: string)

  datatype QuestProject = QuestProject(meta: QuestMeta, nodes: seq<Node>)

  /** `Node(node_id=id, title=title)`: the dataclass defaults for every other field. */
  function NewNode(id: string, title: string): Node {
    Node(id, title, "", "", "", [], [], [], "", [])
  }

  /** `QuestMeta()` with its dataclass defaults. */
  function DefaultMeta(): QuestMeta {
    QuestMeta("Neue Quest", "Unbekannt", "Kurzbeschreibung hier…", "", "", "", "", "", "", "")
  }

  /** `[n.node_id for n in nodes]` */
  function NodeIds(nodes: seq<Node>): (ids: seq<string>)
    ensures |ids| == |nodes|
  {
    seq(|nodes|, i requires 0 <= i < |nodes| => nodes[i].nodeId)
  }

  /** `{n.node_id for n in nodes}` */
  function IdSet(nodes: seq<Node>): set<string> {
    set x | x in NodeIds(nodes)
  }

  lemma InIdSet(nodes: seq<Node>, x: string)
    ensures x in IdSet(nodes) <==> exists i :: 0 <= i < |nodes| && nodes[i].nodeId == x
  {
    if x in IdSet(nodes) {
      var i :| 0 <= i < |NodeIds(nodes)| && NodeIds(nodes)[i] == x;
      assert nodes[i].nodeId == x;
    } else {
      forall i | 0 <= i < |nodes|
        ensures nodes[i].nodeId != x
      {
        assert NodeIds(nodes)[i] == nodes[i].nodeId;
      }
    }
  }

  /** No two nodes share an id: what anchor navigation depends on. */
  ghost predicate IdsDistinct(nodes: seq<Node>) {
    forall i, j :: 0 <= i < j < |nodes| ==> nodes[i].nodeId != nodes[j].nodeId
  }

  /** The export's sanity check `len(ids) != len(set(ids))`. */
  function HasDuplicateIds(nodes: seq<Node>): bool {
    var ids := NodeIds(nodes);
    |ids| != |set x | x in ids|
  }

  /** A list never has more distinct elements than entries, and has exactly as
      many when no value repeats. */
  lemma {:induction false} SetSizeOfSeq<T>(s: seq<T>)
    ensures |set x | x in s| <= |s|
    ensures |set x | x in s| == |s| <==> forall i, j :: 0 <= i < j < |s| ==> s[i] != s[j]
  {
    if s != [] {
      var t := s[1..];
      SetSizeOfSeq(t);
      assert (set x | x in s) == {s[0]} + (set x | x in t) by {
        assert s == [s[0]] + t;
      }
      if s[0] in t {
        var k :| 0 <= k < |t| && t[k] == s[0];
        assert s[0] == s[k + 1];
        assert (set x | x in s) == (set x | x in t);
      } else {
        assert (forall i, j :: 0 <= i < j < |s| ==> s[i] != s[j])
           <==> (forall i, j :: 0 <= i < j < |t| ==> t[i] != t[j]) by {
          if forall i, j :: 0 <= i < j < |t| ==> t[i] != t[j] {
            forall i, j | 0 <= i < j < |s|
              ensures s[i] != s[j]
            {
              if i == 0 {
                assert s[j] == t[j - 1];
              } else {
                assert s[i] == t[i - 1] && s[j] == t[j - 1];
              }
            }
          }
          if forall i, j :: 0 <= i < j < |s| ==> s[i] != s[j] {
            forall i, j | 0 <= i < j < |t|
              ensures t[i] != t[j]
            {
              assert t[i] == s[i + 1] && t[j] == s[j + 1];
            }
          }
        }
      }
    }
  }

  /** The export check finds a duplicate exactly when two nodes share an id. */
  lemma DuplicateCheckCorrect(nodes: seq<Node>)
    ensures HasDuplicateIds(nodes) <==> !IdsDistinct(nodes)
  {
    var ids := NodeIds(nodes);
    SetSizeOfSeq(ids);
    if !IdsDistinct(nodes) {
      var i, j :| 0 <= i < j < |nodes| && nodes[i].nodeId == nodes[j].nodeId;
      assert ids[i] == ids[j];
    }
  }
}
