/** What migrated components and drawn nodes are called. */
module DslNames {
  import opened Options
  import opened Json
  import opened DslMigration
  import opened DslGraph
  import opened DslIsomorphism
  import opened DslReferences
  import R = VariableRefs

  // ------------------------------------------------- the three names

  predicate Legacy(name: string) {
    name == "Splitter" || name == "HierarchicalMerger" || name == "PDFGenerator"
  }

  /** The legacy names have these new ones, and every other name stays. */
  ghost predicate NewName(was: string, now: string) {
    && (was == "Splitter" ==> now == "TokenChunker")
    && (was == "HierarchicalMerger" ==> now == "TitleChunker")
    && (was == "PDFGenerator" ==> now == "DocGenerator")
    && (!Legacy(was) ==> now == was)
  }

  lemma NamesRenamed(name: string)
    ensures NewName(name, RenamedName(name))
  {
  }

  /** The ids with a legacy name before the colon are renamed to the new name of the same
      component, and no others. */
  lemma IdsRenamed(id: string, rest: string)
    ensures Rename("Splitter:" + rest) == "TokenChunker:" + rest
    ensures Rename("HierarchicalMerger:" + rest) == "TitleChunker:" + rest
    ensures Rename("PDFGenerator:" + rest) == "DocGenerator:" + rest
    ensures !("Splitter:" <= id) && !("HierarchicalMerger:" <= id) && !("PDFGenerator:" <= id) ==> Rename(id) == id
  {
    var x, y, z := "Splitter:" + rest, "HierarchicalMerger:" + rest, "PDFGenerator:" + rest;
    assert x[9..] == rest && x[0] == 'S';
    assert y[19..] == rest && y[0] == 'H';
    assert z[13..] == rest && z[0] == 'P';
    assert RENAMES[0].0 == "Splitter:" && RENAMES[1].0 == "HierarchicalMerger:" && RENAMES[2].0 == "PDFGenerator:";
    assert RENAMES[0].0 <= x && RENAMES[1].0 <= y && RENAMES[2].0 <= z;
    assert !(RENAMES[0].0 <= y) && !(RENAMES[0].0 <= z) && !(RENAMES[1].0 <= z);
  }

  /** Ids and names are renamed alike: the id of a component agrees with its name afterwards. */
  lemma IdsFollowNames(name: string, rest: string)
    requires Legacy(name)
    ensures Rename(name + ":" + rest) == RenamedName(name) + ":" + rest
  {
    IdsRenamed("", rest);
    assert "Splitter" + ":" + rest == "Splitter:" + rest && "TokenChunker" + ":" + rest == "TokenChunker:" + rest;
    assert "HierarchicalMerger" + ":" + rest == "HierarchicalMerger:" + rest && "TitleChunker" + ":" + rest == "TitleChunker:" + rest;
    assert "PDFGenerator" + ":" + rest == "PDFGenerator:" + rest && "DocGenerator" + ":" + rest == "DocGenerator:" + rest;
  }

  // ------------------------------------------------- names and references

  lemma {:induction false} NoRefs(s: string)
    requires '{' !in s
    ensures R.Refs(s) == []
    decreases |s|
  {
    if s != "" {
      R.PlainStep(s, (id: string) => id);
      NoRefs(s[1..]);
    }
  }

  lemma {:induction false} BraceStays(s: string, f: string -> string)
    requires '{' in s
    ensures '{' in R.Substitute(s, f)
    decreases |s|
  {
    hide R.Substitute;
    if s[0] == '{' {
      R.SubstituteStarts(s, f);
    } else {
      R.PlainStep(s, f);
      BraceStays(s[1..], f);
    }
  }

  lemma RenameStarts(id: string)
    ensures Rename(id) == id || "T" <= Rename(id) || "D" <= Rename(id)
  {
  }

  lemma LegacyStarts(s: string)
    requires Legacy(s)
    ensures !("T" <= s) && !("D" <= s)
  {
    assert s[0] == 'S' || s[0] == 'H' || s[0] == 'P';
  }

  lemma RenameNotLegacy(id: string)
    requires Legacy(Rename(id))
    ensures Rename(id) == id
  {
    hide Rename;
    RenameStarts(id);
    LegacyStarts(Rename(id));
  }

  /** A legacy name is rewritten to itself, and nothing else is rewritten to one. */
  lemma LegacyText(m: IdMap, s: string)
    requires Final(m)
    ensures Legacy(s) ==> RewriteText(m, s) == s
    ensures Legacy(RewriteText(m, s)) ==> RewriteText(m, s) == s
  {
    hide R.Substitute, R.Refs, Rename;
    if s in m {
      if Legacy(s) { LegacyKept(s); }
      if Legacy(Rename(s)) { RenameNotLegacy(s); }
    } else if '{' in s {
      BraceStays(s, id => Look(m, id));
    } else {
      NoRefs(s);
      R.SubstituteNothing(s, id => Look(m, id));
    }
  }

  lemma LegacyKept(s: string)
    requires Legacy(s)
    ensures Rename(s) == s
  {
    assert |s| == 8 || |s| == 18 || |s| == 12;
    assert s == "Splitter" || !(RENAMES[0].0 <= s) by { assert s != "Splitter" ==> s[0] != 'S'; }
    assert s == "HierarchicalMerger" || !(RENAMES[1].0 <= s) by { assert s != "HierarchicalMerger" ==> s[0] != 'H'; }
    assert s == "PDFGenerator" || !(RENAMES[2].0 <= s) by { assert s != "PDFGenerator" ==> s[0] != 'P'; }
    assert |RENAMES[0].0| == 9 && |RENAMES[1].0| == 19 && |RENAMES[2].0| == 13;
  }

  // ------------------------------------------------- components

  /** A component is called by the new name of its legacy name; any other name is a text like
      the rest of the component. */
  ghost predicate ComponentName(m: IdMap, was: string, now: string) {
    if Legacy(was) then NewName(was, now) else now == RewriteText(m, was)
  }

  /** A name that is no component id and refers to none stays. */
  lemma OtherName(m: IdMap, was: string, now: string)
    requires Final(m) && ComponentName(m, was, now) && !Legacy(was)
    ensures now == was <==> Left(m, was)
  {
    TextLeft(m, was);
  }

  /** A name that happens to be the id of a legacy component does not stay. */
  lemma CustomNameChanges()
    ensures var m := IdsOf(["Splitter:0"]); Final(m) && ComponentName(m, "Splitter:0", "TokenChunker:0")
  {
    IdsRenamed("", "0");
    assert "Splitter:" + "0" == "Splitter:0" && "TokenChunker:" + "0" == "TokenChunker:0";
    assert ["Splitter:0"][0] == "Splitter:0";
    hide Rename, R.Substitute;
  }

  function ObjOf(v: Json): Option<Fields> {
    if !v.Obj? then None else
    var obj := Get(v.fields, "obj");
    if obj.Some? && obj.value.Obj? then Some(obj.value.fields) else None
  }

  /** The component w is v with its name renamed: a name that was missing is null afterwards, and
      one that was no text is rewritten like other values. */
  ghost predicate ComponentNamed(m: IdMap, v: Json, w: Json) {
    match ObjOf(v)
    case None => ObjOf(w) == None
    case Some(obj) =>
      && ObjOf(w).Some?
      && var now := Get(ObjOf(w).value, "component_name");
         match Get(obj, "component_name")
         case None => now == Some(Null)
         case Some(was) =>
           if was.Str? then now.Some? && now.value.Str? && ComponentName(m, was.s, now.value.s)
           else now == Some(RewriteValue(m, was))
  }

  lemma NamePut(m: IdMap, obj: Fields, w: Json)
    requires Final(m) && NameInObj()(Obj(RewriteFields(m, obj))) == Ok(w)
    ensures w.Obj?
    ensures var now := Get(w.fields, "component_name");
      match Get(obj, "component_name")
      case None => now == Some(Null)
      case Some(was) =>
        if was.Str? then now == Some(Str(RenamedName(RewriteText(m, was.s)))) else now == Some(RewriteValue(m, was))
  {
    hide RewriteText, RenamedName, Final, RewriteFields;
    GetRewritten(m, obj, "component_name");
    var was := Get(obj, "component_name");
    var text := if was.Some? then RewriteValue(m, was.value) else Null;
    var now := if text.Str? then Str(RenamedName(text.s)) else text;
    GetPut(RewriteFields(m, obj), "component_name", now, "component_name");
  }

  lemma NameMigrated(m: IdMap, s: string)
    requires Final(m)
    ensures ComponentName(m, s, RenamedName(RewriteText(m, s)))
  {
    hide RewriteText;
    LegacyText(m, s);
    NamesRenamed(RewriteText(m, s));
  }

  /** What a migrated component is called. */
  lemma NameOfComponent(m: IdMap, v: Json, w: Json)
    requires Final(m) && Component(m)(v) == Ok(w)
    ensures ComponentNamed(m, v, w)
  {
    hide Final, Component, ComponentName, NameInObj, RewriteText, RewriteFields, Get;
    if v.Obj? {
      ComponentKeys(m);
      ComponentAt(m, v.fields, w, 0);
      var obj := Get(v.fields, "obj");
      if obj.Some? {
        NoObj(m, obj.value);
        if obj.value.Obj? {
          NamePut(m, obj.value.fields, NameInObj()(RewriteValue(m, obj.value)).value);
          var was := Get(obj.value.fields, "component_name");
          if was.Some? && was.value.Str? { NameMigrated(m, was.value.s); }
        }
      }
    } else {
      NotAnObject(m, v, w);
    }
  }

  lemma NoObj(m: IdMap, v: Json)
    ensures !v.Obj? ==> NameInObj()(RewriteValue(m, v)) == Ok(RewriteValue(m, v)) && !RewriteValue(m, v).Obj?
    ensures v.Obj? ==> RewriteValue(m, v) == Obj(RewriteFields(m, v.fields))
  {
  }

  /** Every entry of the rebuilt dictionary is some component, migrated under its new id. */
  lemma {:induction false} RebuiltFrom(m: IdMap, fields: Fields, done: Fields, g: Field)
    requires Rebuild(m, fields, done).Ok? && Covers(m, fields) && g in Rebuild(m, fields, done).value
    ensures g in done || exists i :: 0 <= i < |fields| && Migrated(m, fields[i], g)
    decreases |fields|
  {
    if fields != [] {
      hide Component, Rename, Look, Rebuild, Migrated, Covers;
      var w := RebuildStep(m, fields, done);
      var next, first := Put(done, Rename(fields[0].key), w), Field(Rename(fields[0].key), w);
      RebuiltFrom(m, fields[1..], next, g);
      if g in next {
        PutMember(done, Rename(fields[0].key), w, g);
        assert g == first ==> Migrated(m, fields[0], g);
      } else {
        var i :| 0 <= i < |fields| - 1 && Migrated(m, fields[1..][i], g);
        assert fields[1..][i] == fields[i + 1];
      }
    }
  }

  lemma RebuildStep(m: IdMap, fields: Fields, done: Fields) returns (w: Json)
    requires fields != [] && Rebuild(m, fields, done).Ok? && Covers(m, fields)
    ensures Migrated(m, fields[0], Field(Rename(fields[0].key), w)) && Covers(m, fields[1..])
    ensures Rebuild(m, fields, done) == Rebuild(m, fields[1..], Put(done, Rename(fields[0].key), w))
  {
    hide Component, Rename, Look, Put;
    w := Component(m)(fields[0].value).value;
    assert forall i :: 0 <= i < |fields| - 1 ==> fields[1..][i] == fields[i + 1];
  }

  lemma {:induction false} PutMember(fields: Fields, key: string, v: Json, g: Field)
    requires g in Put(fields, key, v)
    ensures g in fields || g == Field(key, v)
    decreases |fields|
  {
    if fields != [] && fields[0].key != key {
      if g != fields[0] { PutMember(fields[1..], key, v, g); }
    } else if fields != [] {
      assert g == Field(key, v) || g in fields[1..];
    }
  }

  /** Entry g is component f under its new id and name. */
  ghost predicate Called(m: IdMap, f: Field, g: Field) {
    g.key == Rename(f.key) && ComponentNamed(m, f.value, g.value)
  }

  /** The components of a migrated document, whether ids collide or not: each is one of the
      original components under its new id, called by its new name. */
  lemma DocumentNames(top: Fields, fields: Fields, out: Fields, j: nat)
    requires Get(top, "components") == Some(Obj(fields)) && Migrate(Obj(top)) == Ok(Obj(out))
    ensures Get(out, "components").Some? && Get(out, "components").value.Obj?
    ensures var m, done := IdsOf(Keys(fields)), Get(out, "components").value.fields;
      j < |done| ==> exists i :: 0 <= i < |fields| && Called(m, fields[i], done[j])
  {
    hide Migrate, IdsOf, Rebuild, Component, Rename, ComponentNamed, Get, Covers, Final;
    var m := IdsOf(Keys(fields));
    MigratedComponents(top, fields, out);
    MapFacts(fields);
    var done := Rebuild(m, fields, []).value;
    if j < |done| {
      RebuiltFrom(m, fields, [], done[j]);
      var i :| 0 <= i < |fields| && Migrated(m, fields[i], done[j]);
      NameOfComponent(m, fields[i].value, done[j].value);
      assert Called(m, fields[i], done[j]);
    }
  }

  /** Without collisions component i is the i-th. */
  lemma ComponentsCalled(fields: Fields, done: Fields, i: nat)
    requires Rebuild(IdsOf(Keys(fields)), fields, []) == Ok(done) && NoCollision(fields) && i < |fields|
    ensures |done| == |fields| && Called(IdsOf(Keys(fields)), fields[i], done[i])
  {
    hide IdsOf, Rebuild, Rename, NoCollision, Covers, Final, Injective, Called;
    MapFacts(fields);
    EntryCalled(IdsOf(Keys(fields)), fields, done, i);
  }

  lemma EntryCalled(m: IdMap, fields: Fields, done: Fields, i: nat)
    requires Rebuild(m, fields, []) == Ok(done) && NoCollision(fields) && Covers(m, fields) && Final(m) && i < |fields|
    ensures |done| == |fields| && Called(m, fields[i], done[i])
  {
    hide Rebuild, NewKeys, NoRepeats, NoCollision, Covers, Migrated, Continues, Keys, Final, Called;
    NoneKept(fields);
    RebuildEntries(m, fields, []);
    ContinuesNothing(m, fields, done);
    MigratedCalled(m, fields[i], done[i]);
  }

  lemma MigratedCalled(m: IdMap, f: Field, g: Field)
    requires Final(m) && Migrated(m, f, g)
    ensures Called(m, f, g)
  {
    hide Component, Rename, ComponentNamed, Final;
    NameOfComponent(m, f.value, g.value);
  }

  // ------------------------------------------------- drawn nodes and edges

  /** A text is renamed if it is a legacy name; anything else stays. */
  ghost predicate TextNamed(x: Option<Json>, y: Option<Json>) {
    if x.Some? && x.value.Str? then y.Some? && y.value.Str? && NewName(x.value.s, y.value.s) else y == x
  }

  ghost predicate DataNamed(x: Option<Json>, y: Option<Json>) {
    if x.Some? && x.value.Obj? then
      && y.Some? && y.value.Obj?
      && TextNamed(Get(x.value.fields, "label"), Get(y.value.fields, "label"))
      && TextNamed(Get(x.value.fields, "name"), Get(y.value.fields, "name"))
      && OthersSame(x.value.fields, y.value.fields, ["label", "name", "form"])
    else y == x
  }

  /** Every entry not listed is as it was. */
  ghost predicate OthersSame(x: Fields, y: Fields, listed: seq<string>) {
    forall key: string :: key !in listed ==> Get(y, key) == Get(x, key)
  }

  /** The drawn node y is x with its type, label and name renamed, and no other entry touched
      than those and its id, parent and form. */
  ghost predicate NodeNamed(x: Json, y: Json) {
    if !x.Obj? then y == x else
    && y.Obj?
    && Get(y.fields, "type")
       == (if Get(x.fields, "type") == Some(Str("splitterNode")) then Some(Str("chunkerNode")) else Get(x.fields, "type"))
    && DataNamed(Get(x.fields, "data"), Get(y.fields, "data"))
    && OthersSame(x.fields, y.fields, ["id", "parentId", "type", "data"])
  }

  lemma OnlyListed(fields: Fields, steps: seq<Step>, out: Fields, listed: seq<string>)
    requires RunSteps(fields, steps) == Ok(out) && |listed| == |steps|
    requires forall i :: 0 <= i < |steps| ==> steps[i].key == listed[i]
    ensures OthersSame(fields, out, listed)
  {
    hide RunSteps, Get;
    forall key: string | key !in listed ensures Get(out, key) == Get(fields, key) {
      OtherKeys(fields, steps, key);
    }
  }

  lemma LabelNamed(m: IdMap, fields: Fields, out: Fields, i: nat)
    requires RunSteps(fields, DataSteps(m)) == Ok(out) && i < 2
    ensures var key := if i == 0 then "label" else "name"; TextNamed(Get(fields, key), Get(out, key))
  {
    hide Get, RunSteps, DataSteps, RenamedName, NewName;
    DataKeys(m);
    StepAt(fields, DataSteps(m), i);
    var v := Get(fields, DataSteps(m)[i].key);
    if v.Some? && v.value.Str? { NamesRenamed(v.value.s); }
  }

  lemma DataImage(m: IdMap, v: Json, w: Json)
    requires InObj(DataSteps(m))(v) == Ok(w)
    ensures DataNamed(Some(v), Some(w))
  {
    hide Get, RunSteps, DataSteps, TextNamed, OthersSame;
    DataKeys(m);
    if v.Obj? {
      LabelNamed(m, v.fields, w.fields, 0);
      LabelNamed(m, v.fields, w.fields, 1);
      OnlyListed(v.fields, DataSteps(m), w.fields, ["label", "name", "form"]);
    }
  }

  lemma NodeCalled(m: IdMap, x: Json, y: Json)
    requires InObj(NodeSteps(m))(x) == Ok(y)
    ensures NodeNamed(x, y)
  {
    hide Get, RunSteps, NodeSteps, DataSteps, DataNamed, OthersSame;
    NodeKeys(m);
    if x.Obj? {
      var steps := NodeSteps(m);
      StepAt(x.fields, steps, 2);
      StepAt(x.fields, steps, 3);
      OnlyListed(x.fields, steps, y.fields, ["id", "parentId", "type", "data"]);
      var data := Get(x.fields, "data");
      if data.Some? {
        DataImage(m, data.value, InObj(DataSteps(m))(data.value).value);
      } else {
        NoData();
      }
    }
  }

  lemma NoData()
    ensures DataNamed(None, None)
  {
  }

  /** The drawn edge y is x with its ends and its id renamed, and nothing else touched. */
  ghost predicate EdgeNamed(keys: seq<string>, m: IdMap, x: Json, y: Json) {
    if !x.Obj? then y == x else
    && y.Obj? && OthersSame(x.fields, y.fields, ["source", "target", "id"])
    && Get(y.fields, "id")
       == var id := Get(x.fields, "id");
          if id.Some? && id.value.Str? then Some(Str(ReplaceIds(id.value.s, ByLength(keys), m))) else id
  }

  lemma EdgeCalled(keys: seq<string>, m: IdMap, x: Json, y: Json)
    requires InObj(EdgeSteps(keys, m))(x) == Ok(y)
    ensures EdgeNamed(keys, m, x, y)
  {
    hide Get, RunSteps, EdgeSteps, ReplaceIds, ByLength, OthersSame;
    EdgeKeys(keys, m);
    if x.Obj? {
      var steps := EdgeSteps(keys, m);
      StepAt(x.fields, steps, 2);
      OnlyListed(x.fields, steps, y.fields, ["source", "target", "id"]);
    }
  }

  ghost predicate SameLength(x: Option<seq<Json>>, y: Option<seq<Json>>) {
    (x.Some? <==> y.Some?) && (x.Some? ==> |x.value| == |y.value|)
  }

  /** Drawn node j of a migrated document is called by its new type, label and name, and drawn
      edge j has its id rewritten; neither has another entry touched. */
  lemma DrawnNames(top: Fields, fields: Fields, out: Fields, j: nat)
    requires Get(top, "components") == Some(Obj(fields)) && Migrate(Obj(top)) == Ok(Obj(out))
    ensures SameLength(Drawn(top, "nodes"), Drawn(out, "nodes")) && SameLength(Drawn(top, "edges"), Drawn(out, "edges"))
    ensures Drawn(top, "nodes").Some? && j < |Drawn(top, "nodes").value| ==>
      NodeNamed(Drawn(top, "nodes").value[j], Drawn(out, "nodes").value[j])
    ensures Drawn(top, "edges").Some? && j < |Drawn(top, "edges").value| ==>
      EdgeNamed(Keys(fields), IdsOf(Keys(fields)), Drawn(top, "edges").value[j], Drawn(out, "edges").value[j])
  {
    hide IdsOf, Get, Migrate, NodeSteps, EdgeSteps, InObj, Drawn, NodeNamed, EdgeNamed;
    var m, keys := IdsOf(Keys(fields)), Keys(fields);
    GraphKeys(keys, m);
    DrawnMapped(top, fields, out, 0, InObj(NodeSteps(m)));
    DrawnMapped(top, fields, out, 1, InObj(EdgeSteps(keys, m)));
    var nodes, edges := Drawn(top, "nodes"), Drawn(top, "edges");
    if nodes.Some? && j < |nodes.value| { NodeCalled(m, nodes.value[j], Drawn(out, "nodes").value[j]); }
    if edges.Some? && j < |edges.value| { EdgeCalled(keys, m, edges.value[j], Drawn(out, "edges").value[j]); }
  }

  // ------------------------------------------------- replacing ids in an edge id

  ghost predicate Occurs(s: string, was: string, k: nat) {
    k <= |s| && was <= s[k..]
  }

  /** A text without the id stays as it is. */
  lemma {:induction false} ReplaceAbsent(s: string, was: string, now: string)
    requires was != "" && forall k: nat :: !Occurs(s, was, k)
    ensures ReplaceAll(s, was, now) == s
    decreases |s|
  {
    if s != "" {
      assert s[0..] == s && !Occurs(s, was, 0);
      forall k: nat ensures !Occurs(s[1..], was, k) {
        assert k < |s| ==> s[1..][k..] == s[k + 1..];
        assert !Occurs(s, was, k + 1);
      }
      ReplaceAbsent(s[1..], was, now);
      assert s == [s[0]] + s[1..];
    }
  }

  /** The first occurrence is replaced, and the search goes on after it. */
  lemma {:induction false} ReplaceFirst(u: string, was: string, v: string, now: string)
    requires was != "" && forall k: nat :: k < |u| ==> !Occurs(u + was + v, was, k)
    ensures ReplaceAll(u + was + v, was, now) == u + now + ReplaceAll(v, was, now)
    decreases |u|
  {
    var s := u + was + v;
    if u == "" {
      assert s == was + v && s[|was|..] == v;
      assert u + now == now;
    } else {
      assert s[0..] == s && !Occurs(s, was, 0);
      assert s[1..] == u[1..] + was + v && s[0] == u[0];
      forall k: nat | k < |u| - 1 ensures !Occurs(u[1..] + was + v, was, k) {
        assert !Occurs(s, was, k + 1) && s[1..][k..] == s[k + 1..];
      }
      ReplaceFirst(u[1..], was, v, now);
      assert u + now + ReplaceAll(v, was, now) == [u[0]] + (u[1..] + now + ReplaceAll(v, was, now));
    }
  }

  /** The ids are replaced one after the other. */
  lemma {:induction false} ReplaceInTurn(s: string, a: seq<string>, b: seq<string>, m: IdMap)
    ensures ReplaceIds(s, a + b, m) == ReplaceIds(ReplaceIds(s, a, m), b, m)
    decreases |b|
  {
    hide ReplaceAll;
    if b == [] {
      assert a + b == a;
    } else {
      var front, last := b[..|b| - 1], b[|b| - 1];
      assert (a + b)[..|a + b| - 1] == a + front && (a + b)[|a + b| - 1] == last;
      ReplaceInTurn(s, a, front, m);
    }
  }

  lemma ReplaceOne(s: string, key: string, m: IdMap)
    ensures ReplaceIds(s, [key], m) == ReplaceAll(s, key, Look(m, key))
  {
    hide ReplaceAll;
    assert [key][..0] == [];
    assert ReplaceIds(s, [], m) == s;
  }

  ghost predicate LongestFirst(keys: seq<string>) {
    forall i, j :: 0 <= i < j < |keys| ==> |keys[i]| >= |keys[j]|
  }

  /** The keys of one length, in their order. */
  ghost function OfLength(keys: seq<string>, n: nat): seq<string> {
    if keys == [] then [] else (if |keys[0]| == n then [keys[0]] else []) + OfLength(keys[1..], n)
  }

  lemma {:induction false} OfLengthAppend(a: seq<string>, b: seq<string>, n: nat)
    ensures OfLength(a + b, n) == OfLength(a, n) + OfLength(b, n)
    decreases |a|
  {
    if a == [] {
      assert a + b == b;
    } else {
      assert (a + b)[1..] == a[1..] + b;
      OfLengthAppend(a[1..], b, n);
    }
  }

  lemma {:induction false} NoneOfLength(keys: seq<string>, n: nat)
    requires forall i :: 0 <= i < |keys| ==> |keys[i]| < n
    ensures OfLength(keys, n) == []
    decreases |keys|
  {
    if keys != [] {
      NoneOfLength(keys[1..], n);
    }
  }

  lemma {:induction false} InsertedMembers(keys: seq<string>, key: string)
    ensures multiset(InsertByLength(keys, key)) == multiset(keys) + multiset{key}
    decreases |keys|
  {
    if keys != [] && |keys[0]| >= |key| {
      InsertedMembers(keys[1..], key);
      assert keys == [keys[0]] + keys[1..];
    }
  }

  lemma {:induction false} InsertedLongestFirst(keys: seq<string>, key: string)
    requires LongestFirst(keys)
    ensures LongestFirst(InsertByLength(keys, key))
    decreases |keys|
  {
    if keys != [] && |keys[0]| >= |key| {
      var rest := InsertByLength(keys[1..], key);
      InsertedLongestFirst(keys[1..], key);
      InsertedMembers(keys[1..], key);
      forall i | 0 <= i < |rest| ensures |keys[0]| >= |rest[i]| {
        assert rest[i] in multiset(rest);
        assert rest[i] == key || rest[i] in keys[1..];
      }
    }
  }

  lemma {:induction false} InsertedOfLength(keys: seq<string>, key: string, n: nat)
    requires LongestFirst(keys)
    ensures OfLength(InsertByLength(keys, key), n) == OfLength(keys, n) + if |key| == n then [key] else []
    decreases |keys|
  {
    var r := InsertByLength(keys, key);
    if keys == [] || |keys[0]| < |key| {
      assert r == [key] + keys && r[1..] == keys;
      if |key| == n { NoneOfLength(keys, n); }
    } else {
      InsertedOfLength(keys[1..], key, n);
      assert r[0] == keys[0] && r[1..] == InsertByLength(keys[1..], key);
    }
  }

  /** The ids, longest first, and those of one length in their order. */
  lemma {:induction false} OrderedByLength(keys: seq<string>, n: nat)
    ensures LongestFirst(ByLength(keys)) && multiset(ByLength(keys)) == multiset(keys)
    ensures OfLength(ByLength(keys), n) == OfLength(keys, n)
    decreases |keys|
  {
    if keys != [] {
      var front, key := keys[..|keys| - 1], keys[|keys| - 1];
      assert keys == front + [key];
      OrderedByLength(front, n);
      hide InsertByLength;
      InsertedLongestFirst(ByLength(front), key);
      InsertedMembers(ByLength(front), key);
      InsertedOfLength(ByLength(front), key, n);
      OfLengthAppend(front, [key], n);
      assert [key][1..] == [];
      assert OfLength([key], n) == if |key| == n then [key] else [];
    }
  }
}
