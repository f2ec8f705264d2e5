/** `normalize_chunker_dsl`: legacy component ids and names renamed throughout a workflow. */
module DslMigration {
  import opened Options
  import opened Json
  import R = VariableRefs

  type IdMap = map<string, string>

  // ------------------------------------------------- renames

  function RenamedName(name: string): string {
    if name == "Splitter" then "TokenChunker"
    else if name == "HierarchicalMerger" then "TitleChunker"
    else if name == "PDFGenerator" then "DocGenerator"
    else name
  }

  const RENAMES: seq<(string, string)> :=
    [("Splitter:", "TokenChunker:"), ("HierarchicalMerger:", "TitleChunker:"), ("PDFGenerator:", "DocGenerator:")]

  /** The new id of a component: its legacy prefix replaced. */
  function Rename(id: string): string {
    if RENAMES[0].0 <= id then RENAMES[0].1 + id[|RENAMES[0].0|..]
    else if RENAMES[1].0 <= id then RENAMES[1].1 + id[|RENAMES[1].0|..]
    else if RENAMES[2].0 <= id then RENAMES[2].1 + id[|RENAMES[2].0|..]
    else id
  }

  /** New ids are never renamed again. */
  lemma RenameSettles(id: string)
    ensures Rename(Rename(id)) == Rename(id)
  {
    var r := Rename(id);
    if r != id { assert r[0] == 'T' || r[0] == 'D'; }
  }

  /** A renamed id is still one word in a reference. */
  lemma RenameKeepsWords(id: string)
    requires R.IdWord(id)
    ensures R.IdWord(Rename(id))
  {
  }

  function IdsOf(keys: seq<string>): (m: IdMap)
    ensures forall k :: k in m <==> k in keys
    ensures forall k :: k in m ==> m[k] == Rename(k)
  {
    map k | k in keys :: Rename(k)
  }

  /** `component_id_map.get(id, id)`. */
  function Look(m: IdMap, id: string): string {
    if id in m then m[id] else id
  }

  ghost predicate Identity(m: IdMap) {
    forall k :: k in m ==> m[k] == k
  }

  // ------------------------------------------------- values

  /** `rewrite_variable_refs`. */
  function RewriteText(m: IdMap, s: string): string {
    if s in m then m[s] else R.Substitute(s, id => Look(m, id))
  }

  /** `rewrite_value`. */
  function RewriteValue(m: IdMap, v: Json): Json
    decreases v, 1
  {
    match v
    case Str(s) => Str(RewriteText(m, s))
    case Arr(items) => Arr(RewriteItems(m, items))
    case Obj(fields) => Obj(RewriteFields(m, fields))
    case _ => v
  }

  function RewriteItems(m: IdMap, items: seq<Json>): (r: seq<Json>)
    ensures |r| == |items|
    decreases items, 0
  {
    if items == [] then [] else [RewriteValue(m, items[0])] + RewriteItems(m, items[1..])
  }

  function RewriteFields(m: IdMap, fields: Fields): (r: Fields)
    ensures |r| == |fields|
    decreases fields, 0
  {
    if fields == [] then [] else
    [Field(fields[0].key, RewriteValue(m, fields[0].value))] + RewriteFields(m, fields[1..])
  }

  function Rewrite(m: IdMap): Transform {
    (v: Json) => Ok(RewriteValue(m, v))
  }

  /** A string id is looked up; other values stay. */
  function IdText(m: IdMap): Transform {
    (v: Json) => Ok(if v.Str? then Str(Look(m, v.s)) else v)
  }

  /** Every member of a list is looked up; one that cannot be a key raises. */
  function IdMember(m: IdMap): Transform {
    (v: Json) => if !Hashable(v) then Raised else Ok(if v.Str? then Str(Look(m, v.s)) else v)
  }

  function Ids(m: IdMap): Transform {
    InArr(IdMember(m))
  }

  function NameText(): Transform {
    (v: Json) => Ok(if v.Str? then Str(RenamedName(v.s)) else v)
  }

  function TypeText(): Transform {
    (v: Json) => Ok(if v == Str("splitterNode") then Str("chunkerNode") else v)
  }

  /** `obj["component_name"] = COMPONENT_RENAMES.get(name, name)`, which also creates the
      entry when it is missing. */
  function NameInObj(): Transform {
    (v: Json) =>
      if !v.Obj? then Ok(v) else
      var name := Get(v.fields, "component_name");
      var was := if name.Some? then name.value else Null;
      if !Hashable(was) then Raised
      else Ok(Obj(Put(v.fields, "component_name", if was.Str? then Str(RenamedName(was.s)) else was)))
  }

  function ComponentSteps(m: IdMap): seq<Step> {
    [Step("obj", NameInObj()), Step("downstream", Ids(m)), Step("upstream", Ids(m)), Step("parent_id", IdText(m))]
  }

  function Component(m: IdMap): Transform {
    Then(Rewrite(m), InObj(ComponentSteps(m)))
  }

  /** The new components dictionary, built entry by entry; a later entry with the same new id
      replaces an earlier one. */
  function Rebuild(m: IdMap, fields: Fields, done: Fields): Result<Fields>
    decreases |fields|
  {
    if fields == [] then Ok(done) else
    var c := Component(m)(fields[0].value);
    if c.Raised? then Raised else Rebuild(m, fields[1..], Put(done, Look(m, fields[0].key), c.value))
  }

  function Components(m: IdMap): Transform {
    (v: Json) =>
      if !v.Obj? then Ok(v) else
      var r := Rebuild(m, v.fields, []);
      if r.Raised? then Raised else Ok(Obj(r.value))
  }

  // ------------------------------------------------- graph

  function DataSteps(m: IdMap): seq<Step> {
    [Step("label", NameText()), Step("name", NameText()), Step("form", Rewrite(m))]
  }

  function NodeSteps(m: IdMap): seq<Step> {
    [Step("id", IdText(m)), Step("parentId", IdText(m)), Step("type", TypeText()), Step("data", InObj(DataSteps(m)))]
  }

  /** `s.replace(old, new)`; the empty id is never renamed, so its replacement changes nothing. */
  function ReplaceAll(s: string, was: string, now: string): string
    decreases |s|
  {
    if s == "" || was == "" then s
    else if was <= s then now + ReplaceAll(s[|was|..], was, now)
    else [s[0]] + ReplaceAll(s[1..], was, now)
  }

  /** Longest id first, ids of equal length in their order. */
  function InsertByLength(keys: seq<string>, key: string): seq<string> {
    if keys == [] || |keys[0]| < |key| then [key] + keys else [keys[0]] + InsertByLength(keys[1..], key)
  }

  function ByLength(keys: seq<string>): seq<string> {
    if keys == [] then [] else InsertByLength(ByLength(keys[..|keys| - 1]), keys[|keys| - 1])
  }

  function ReplaceIds(s: string, keys: seq<string>, m: IdMap): string {
    if keys == [] then s else
    ReplaceAll(ReplaceIds(s, keys[..|keys| - 1], m), keys[|keys| - 1], Look(m, keys[|keys| - 1]))
  }

  function EdgeId(keys: seq<string>, m: IdMap): Transform {
    (v: Json) => Ok(if v.Str? then Str(ReplaceIds(v.s, ByLength(keys), m)) else v)
  }

  function EdgeSteps(keys: seq<string>, m: IdMap): seq<Step> {
    [Step("source", IdText(m)), Step("target", IdText(m)), Step("id", EdgeId(keys, m))]
  }

  function GraphSteps(keys: seq<string>, m: IdMap): seq<Step> {
    [Step("nodes", InArr(InObj(NodeSteps(m)))), Step("edges", InArr(InObj(EdgeSteps(keys, m))))]
  }

  function TopSteps(keys: seq<string>, m: IdMap): seq<Step> {
    [Step("components", Components(m)), Step("path", Ids(m)), Step("graph", InObj(GraphSteps(keys, m))),
     Step("history", Rewrite(m)), Step("messages", Rewrite(m)), Step("reference", Rewrite(m))]
  }

  /** `normalize_chunker_dsl`. */
  function Migrate(dsl: Json): Result<Json> {
    if !dsl.Obj? then Ok(dsl) else
    var components := Get(dsl.fields, "components");
    if components.None? || !components.value.Obj? then Ok(dsl) else
    var keys := Keys(components.value.fields);
    var r := RunSteps(dsl.fields, TopSteps(keys, IdsOf(keys)));
    if r.Raised? then Raised else Ok(Obj(r.value))
  }

  // ------------------------------------------------- the loops of the code

  /** The id map: for every component the first legacy prefix that fits. */
  method BuildIdMap(keys: seq<string>) returns (m: IdMap)
    ensures m == IdsOf(keys)
  {
    m := map[];
    for i := 0 to |keys|
      invariant m == IdsOf(keys[..i])
    {
      assert keys[..i + 1] == keys[..i] + [keys[i]];
      var id := keys[i];
      var j := 0;
      while j < |RENAMES| && !(RENAMES[j].0 <= keys[i])
        invariant j <= |RENAMES| && forall k :: 0 <= k < j ==> !(RENAMES[k].0 <= keys[i])
      {
        j := j + 1;
      }
      if j < |RENAMES| {
        id := RENAMES[j].1 + keys[i][|RENAMES[j].0|..];
      }
      m := m[keys[i] := id];
    }
    assert keys[..|keys|] == keys;
  }

  /** The components loop. */
  method RebuildComponents(m: IdMap, fields: Fields) returns (r: Result<Fields>)
    ensures r == Rebuild(m, fields, [])
  {
    var done: Fields := [];
    for i := 0 to |fields|
      invariant Rebuild(m, fields[i..], done) == Rebuild(m, fields, [])
    {
      assert fields[i..][0] == fields[i] && fields[i..][1..] == fields[i + 1..];
      var c := Component(m)(fields[i].value);
      if c.Raised? {
        return Raised;
      }
      done := Put(done, Look(m, fields[i].key), c.value);
    }
    return Ok(done);
  }

  /** The replacement loop of an edge id. */
  method ReplaceEdgeId(s: string, keys: seq<string>, m: IdMap) returns (r: string)
    ensures EdgeId(keys, m)(Str(s)) == Ok(Str(r))
  {
    var order := ByLength(keys);
    r := s;
    for i := 0 to |order|
      invariant r == ReplaceIds(s, order[..i], m)
    {
      assert order[..i + 1][..i] == order[..i];
      r := ReplaceAll(r, order[i], Look(m, order[i]));
    }
    assert order[..|order|] == order;
  }

  /** The whole migration. */
  method Normalize(dsl: Json) returns (r: Result<Json>)
    ensures r == Migrate(dsl)
  {
    if !dsl.Obj? {
      return Ok(dsl);
    }
    var components := Get(dsl.fields, "components");
    if components.None? || !components.value.Obj? {
      return Ok(dsl);
    }
    var keys := Keys(components.value.fields);
    var m := BuildIdMap(keys);
    var steps := TopSteps(keys, m);
    var rebuilt := RebuildComponents(m, components.value.fields);
    if rebuilt.Raised? {
      return Raised;
    }
    var fields := Put(dsl.fields, "components", Obj(rebuilt.value));
    assert RunStep(dsl.fields, steps[0]) == Ok(fields);
    for i := 1 to |steps|
      invariant RunSteps(fields, steps[i..]) == RunSteps(dsl.fields, steps)
    {
      assert steps[i..][0] == steps[i] && steps[i..][1..] == steps[i + 1..];
      var next := RunStep(fields, steps[i]);
      if next.Raised? {
        return Raised;
      }
      fields := next.value;
    }
    return Ok(Obj(fields));
  }
}
