/** Variable references in a migrated document, text by text through every nested value. */
module DslReferences {
  import opened Options
  import opened Json
  import opened DslMigration
  import opened DslGraph
  import opened DslIsomorphism
  import R = VariableRefs

  // ------------------------------------------------- texts and references of a value

  /** Every text in a value, in order; the keys of dictionaries are not among them. */
  function Texts(v: Json): seq<string>
    decreases v, 1
  {
    match v
    case Str(s) => [s]
    case Arr(items) => ItemTexts(items)
    case Obj(fields) => FieldTexts(fields)
    case _ => []
  }

  function ItemTexts(items: seq<Json>): seq<string>
    decreases items, 0
  {
    if items == [] then [] else Texts(items[0]) + ItemTexts(items[1..])
  }

  function FieldTexts(fields: Fields): seq<string>
    decreases fields, 0
  {
    if fields == [] then [] else Texts(fields[0].value) + FieldTexts(fields[1..])
  }

  /** The ids referred to in these texts, in order. */
  function RefsIn(texts: seq<string>): seq<string> {
    if texts == [] then [] else R.Refs(texts[0]) + RefsIn(texts[1..])
  }

  /** Every variable reference in a value, in order. */
  function AllRefs(v: Json): seq<string> {
    RefsIn(Texts(v))
  }

  lemma {:induction false} RefsApart(a: seq<string>, b: seq<string>)
    ensures RefsIn(a + b) == RefsIn(a) + RefsIn(b)
    decreases |a|
  {
    if a == [] {
      assert a + b == b;
    } else {
      assert (a + b)[1..] == a[1..] + b;
      RefsApart(a[1..], b);
    }
  }

  // ------------------------------------------------- rewriting, text by text

  /** y holds the texts of x, each rewritten. */
  ghost predicate TextsRewritten(m: IdMap, x: seq<string>, y: seq<string>) {
    |y| == |x| && forall i :: 0 <= i < |x| ==> y[i] == RewriteText(m, x[i])
  }

  /** Rewriting a value rewrites each of its texts and nothing else. */
  lemma {:induction false} RewriteTexts(m: IdMap, v: Json)
    ensures TextsRewritten(m, Texts(v), Texts(RewriteValue(m, v)))
    decreases v, 1
  {
    hide RewriteText;
    match v
    case Str(s) =>
    case Arr(items) => RewriteItemTexts(m, items);
    case Obj(fields) => RewriteFieldTexts(m, fields);
    case _ =>
  }

  lemma TextsJoin(m: IdMap, a: seq<string>, b: seq<string>, a': seq<string>, b': seq<string>)
    requires TextsRewritten(m, a, a') && TextsRewritten(m, b, b')
    ensures TextsRewritten(m, a + b, a' + b')
  {
    hide RewriteText;
  }

  lemma {:induction false} RewriteItemTexts(m: IdMap, items: seq<Json>)
    ensures TextsRewritten(m, ItemTexts(items), ItemTexts(RewriteItems(m, items)))
    decreases items, 0
  {
    if items != [] {
      RewriteTexts(m, items[0]);
      RewriteItemTexts(m, items[1..]);
      hide RewriteText, RewriteValue, Texts, TextsRewritten;
      var out := RewriteItems(m, items);
      assert out[0] == RewriteValue(m, items[0]) && out[1..] == RewriteItems(m, items[1..]);
      TextsJoin(m, Texts(items[0]), ItemTexts(items[1..]), Texts(out[0]), ItemTexts(out[1..]));
    }
  }

  lemma {:induction false} RewriteFieldTexts(m: IdMap, fields: Fields)
    ensures TextsRewritten(m, FieldTexts(fields), FieldTexts(RewriteFields(m, fields)))
    decreases fields, 0
  {
    if fields != [] {
      RewriteTexts(m, fields[0].value);
      RewriteFieldTexts(m, fields[1..]);
      hide RewriteText, RewriteValue, Texts, TextsRewritten;
      var out := RewriteFields(m, fields);
      assert out[0].value == RewriteValue(m, fields[0].value) && out[1..] == RewriteFields(m, fields[1..]);
      TextsJoin(m, Texts(fields[0].value), FieldTexts(fields[1..]), Texts(out[0].value), FieldTexts(out[1..]));
    }
  }

  // ------------------------------------------------- what stays as it is

  /** Nothing in the text is renamed. */
  ghost predicate Left(m: IdMap, s: string) {
    if s in m then m[s] == s else forall id :: id in R.Refs(s) ==> Look(m, id) == id
  }

  lemma LookKeepsWords(m: IdMap)
    requires Final(m)
    ensures forall id :: R.IdWord(id) ==> R.IdWord(Look(m, id))
  {
    hide R.IdWord, Rename;
    forall id | R.IdWord(id) ensures R.IdWord(Look(m, id)) { RenameKeepsWords(id); }
  }

  lemma TextLeft(m: IdMap, s: string)
    requires Final(m)
    ensures RewriteText(m, s) == s <==> Left(m, s)
  {
    hide R.Substitute, R.Refs, Rename, R.IdWord;
    if s !in m {
      var f := (id: string) => Look(m, id);
      LookKeepsWords(m);
      R.RefsRenamed(s, f);
      if RewriteText(m, s) == s {
        assert R.MapAll(R.Refs(s), f) == R.Refs(s);
      } else if Left(m, s) {
        R.SubstituteNothing(s, f);
      }
    }
  }

  /** A value is left as it is exactly when each of its texts is. */
  lemma {:induction false} ValueLeft(m: IdMap, v: Json)
    ensures RewriteValue(m, v) == v <==> forall s :: s in Texts(v) ==> RewriteText(m, s) == s
    decreases v, 1
  {
    hide RewriteText;
    match v
    case Str(s) =>
    case Arr(items) => ItemsLeft(m, items);
    case Obj(fields) => FieldsLeft(m, fields);
    case _ =>
  }

  lemma {:induction false} ItemsLeft(m: IdMap, items: seq<Json>)
    ensures RewriteItems(m, items) == items <==> forall s :: s in ItemTexts(items) ==> RewriteText(m, s) == s
    decreases items, 0
  {
    hide RewriteText;
    if items != [] {
      ValueLeft(m, items[0]);
      ItemsLeft(m, items[1..]);
      hide RewriteValue, Texts;
      assert items == [items[0]] + items[1..];
      var out := RewriteItems(m, items);
      assert out[0] == RewriteValue(m, items[0]) && out[1..] == RewriteItems(m, items[1..]);
    }
  }

  lemma {:induction false} FieldsLeft(m: IdMap, fields: Fields)
    ensures RewriteFields(m, fields) == fields <==> forall s :: s in FieldTexts(fields) ==> RewriteText(m, s) == s
    decreases fields, 0
  {
    hide RewriteText;
    if fields != [] {
      ValueLeft(m, fields[0].value);
      FieldsLeft(m, fields[1..]);
      hide RewriteValue, Texts;
      assert fields == [fields[0]] + fields[1..];
      var out := RewriteFields(m, fields);
      assert out[0] == Field(fields[0].key, RewriteValue(m, fields[0].value)) && out[1..] == RewriteFields(m, fields[1..]);
    }
  }

  /** Rewriting changes a value exactly when some text in it is a component id that is renamed,
      or is no component id and refers to one that is renamed. */
  lemma ParametersKept(m: IdMap, v: Json)
    requires Final(m)
    ensures RewriteValue(m, v) == v <==> forall s :: s in Texts(v) ==> Left(m, s)
  {
    hide RewriteText, RewriteValue, Left, Texts, Final;
    ValueLeft(m, v);
    forall s ensures RewriteText(m, s) == s <==> Left(m, s) { TextLeft(m, s); }
  }

  // ------------------------------------------------- references after rewriting

  function LookAll(m: IdMap, ids: seq<string>): (r: seq<string>)
    ensures |r| == |ids| && forall i :: 0 <= i < |ids| ==> r[i] == Look(m, ids[i])
  {
    seq(|ids|, i requires 0 <= i < |ids| => Look(m, ids[i]))
  }

  lemma LookApart(m: IdMap, a: seq<string>, b: seq<string>)
    ensures LookAll(m, a + b) == LookAll(m, a) + LookAll(m, b)
  {
    hide Look;
  }

  /** A text that is itself a component id is replaced as a whole: references written inside
      such an id are not looked up, which matters only if they would be renamed. */
  ghost predicate Calm(m: IdMap, s: string) {
    s in m ==> forall id :: id in R.Refs(s) ==> Look(m, id) == id
  }

  ghost predicate AllCalm(m: IdMap, texts: seq<string>) {
    forall s :: s in texts ==> Calm(m, s)
  }

  lemma {:induction false} PlainRefs(u: string, v: string)
    requires forall i :: 0 <= i < |u| ==> u[i] != '{'
    ensures R.Refs(u + v) == R.Refs(v)
    decreases |u|
  {
    if u == "" {
      assert u + v == v;
    } else {
      assert (u + v)[1..] == u[1..] + v && (u + v)[0] == u[0];
      R.PlainStep(u + v, (id: string) => id);
      PlainRefs(u[1..], v);
    }
  }

  /** A new id holds the references of the old one. */
  lemma RenameRefs(id: string)
    ensures R.Refs(Rename(id)) == R.Refs(id)
  {
    hide R.Refs;
    if j :| 0 <= j < 3 && RENAMES[j].0 <= id && Rename(id) == RENAMES[j].1 + id[|RENAMES[j].0|..] {
      assert id == RENAMES[j].0 + id[|RENAMES[j].0|..];
      PlainRefs(RENAMES[j].0, id[|RENAMES[j].0|..]);
      PlainRefs(RENAMES[j].1, id[|RENAMES[j].0|..]);
    } else {
      assert !(RENAMES[0].0 <= id) && !(RENAMES[1].0 <= id) && !(RENAMES[2].0 <= id);
    }
  }

  lemma TextRefs(m: IdMap, s: string)
    requires Final(m)
    ensures |R.Refs(RewriteText(m, s))| == |R.Refs(s)|
    ensures R.Refs(RewriteText(m, s)) == LookAll(m, R.Refs(s)) <==> Calm(m, s)
  {
    hide R.Substitute, R.Refs, Rename, R.IdWord;
    if s in m {
      RenameRefs(s);
    } else {
      LookKeepsWords(m);
      R.RefsRenamed(s, (id: string) => Look(m, id));
    }
  }

  lemma {:induction false} RefsRewritten(m: IdMap, x: seq<string>, y: seq<string>)
    requires Final(m) && TextsRewritten(m, x, y)
    ensures |RefsIn(y)| == |RefsIn(x)|
    ensures RefsIn(y) == LookAll(m, RefsIn(x)) <==> AllCalm(m, x)
    decreases |x|
  {
    hide Final, RewriteText, R.Refs, Look, Calm;
    if x != [] {
      TextRefs(m, x[0]);
      RefsRewritten(m, x[1..], y[1..]);
      LookApart(m, R.Refs(x[0]), RefsIn(x[1..]));
      SameParts(R.Refs(y[0]), RefsIn(y[1..]), LookAll(m, R.Refs(x[0])), LookAll(m, RefsIn(x[1..])));
      assert x == [x[0]] + x[1..];
    }
  }

  lemma SameParts(a: seq<string>, b: seq<string>, c: seq<string>, d: seq<string>)
    requires |a| == |c|
    ensures a + b == c + d <==> a == c && b == d
  {
    if a + b == c + d {
      assert a == (a + b)[..|a|] && c == (c + d)[..|c|];
      assert b == (a + b)[|a|..] && d == (c + d)[|c|..];
    }
  }

  /** The references in a rewritten value are the renamed references of the value, exactly when
      no text that is a component id holds a reference that would be renamed. */
  lemma ValueRefs(m: IdMap, v: Json)
    requires Final(m)
    ensures |AllRefs(RewriteValue(m, v))| == |AllRefs(v)|
    ensures AllRefs(RewriteValue(m, v)) == LookAll(m, AllRefs(v)) <==> AllCalm(m, Texts(v))
  {
    hide Final, Texts, RewriteValue, AllCalm, TextsRewritten;
    RewriteTexts(m, v);
    RefsRewritten(m, Texts(v), Texts(RewriteValue(m, v)));
  }

  /** Component ids without braces hold no reference. */
  lemma PlainIdsCalm(m: IdMap, texts: seq<string>)
    requires forall k :: k in m ==> '{' !in k
    ensures AllCalm(m, texts)
  {
    forall s | s in texts && s in m ensures R.Refs(s) == [] {
      assert forall i :: 0 <= i < |s| ==> s[i] in s;
      PlainRefs(s, "");
      assert s + "" == s;
    }
  }

  // ------------------------------------------------- steps that keep all references

  /** The steps after the rewriting of a component change no reference. */
  ghost predicate KeepsRefs(g: Transform) {
    forall v: Json, w: Json :: g(v) == Ok(w) ==> AllRefs(w) == AllRefs(v)
  }

  lemma ObjRefs(fields: Fields)
    ensures AllRefs(Obj(fields)) == RefsIn(FieldTexts(fields))
  {
  }

  lemma {:induction false} PutRefs(fields: Fields, key: string, w: Json)
    requires Get(fields, key).Some? ==> AllRefs(w) == AllRefs(Get(fields, key).value)
    requires Get(fields, key).None? ==> AllRefs(w) == []
    ensures RefsIn(FieldTexts(Put(fields, key, w))) == RefsIn(FieldTexts(fields))
    decreases |fields|
  {
    hide R.Refs, Texts;
    if fields == [] {
      assert FieldTexts([Field(key, w)]) == Texts(w) + [];
      RefsApart(Texts(w), []);
    } else {
      var rest := FieldTexts(fields[1..]);
      RefsApart(Texts(fields[0].value), rest);
      if fields[0].key == key {
        RefsApart(Texts(w), rest);
        var put := Put(fields, key, w);
        assert put[0].value == w && put[1..] == fields[1..];
      } else {
        PutRefs(fields[1..], key, w);
        var put := Put(fields, key, w);
        assert put[0] == fields[0] && put[1..] == Put(fields[1..], key, w);
        RefsApart(Texts(fields[0].value), FieldTexts(put[1..]));
      }
    }
  }

  lemma {:induction false} StepsRefs(fields: Fields, steps: seq<Step>)
    requires RunSteps(fields, steps).Ok? && forall i :: 0 <= i < |steps| ==> KeepsRefs(steps[i].g)
    ensures RefsIn(FieldTexts(RunSteps(fields, steps).value)) == RefsIn(FieldTexts(fields))
    decreases |steps|
  {
    hide Get, Put, FieldTexts, RefsIn, AllRefs;
    if steps != [] {
      var v := Get(fields, steps[0].key);
      assert KeepsRefs(steps[0].g);
      if v.Some? { PutRefs(fields, steps[0].key, steps[0].g(v.value).value); }
      StepsRefs(RunStep(fields, steps[0]).value, steps[1..]);
    }
  }

  lemma InObjRefs(steps: seq<Step>)
    requires forall i :: 0 <= i < |steps| ==> KeepsRefs(steps[i].g)
    ensures KeepsRefs(InObj(steps))
  {
    forall v: Json, w: Json | InObj(steps)(v) == Ok(w) ensures AllRefs(w) == AllRefs(v) {
      hide RunSteps, FieldTexts, RefsIn;
      if v.Obj? {
        StepsRefs(v.fields, steps);
      }
    }
  }

  lemma {:induction false} MapAllRefs(items: seq<Json>, g: Transform)
    requires MapAll(items, g).Ok? && KeepsRefs(g)
    ensures RefsIn(ItemTexts(MapAll(items, g).value)) == RefsIn(ItemTexts(items))
    decreases |items|
  {
    hide Texts, R.Refs;
    if items != [] {
      MapAllRefs(items[1..], g);
      var out := MapAll(items, g).value;
      assert out[1..] == MapAll(items[1..], g).value && g(items[0]) == Ok(out[0]);
      RefsApart(Texts(items[0]), ItemTexts(items[1..]));
      RefsApart(Texts(out[0]), ItemTexts(out[1..]));
    }
  }

  lemma InArrRefs(g: Transform)
    requires KeepsRefs(g)
    ensures KeepsRefs(InArr(g))
  {
    forall v: Json, w: Json | InArr(g)(v) == Ok(w) ensures AllRefs(w) == AllRefs(v) {
      hide MapAll, ItemTexts, RefsIn, KeepsRefs;
      if v.Arr? {
        MapAllRefs(v.items, g);
      }
    }
  }

  lemma OneText(s: string)
    ensures AllRefs(Str(s)) == R.Refs(s)
  {
    assert Texts(Str(s)) == [s] && RefsIn([s][1..]) == [];
  }

  lemma LookRefs(m: IdMap, s: string)
    requires Final(m)
    ensures AllRefs(Str(Look(m, s))) == AllRefs(Str(s))
  {
    hide R.Refs, Rename, AllRefs;
    OneText(s);
    OneText(Look(m, s));
    RenameRefs(s);
  }

  lemma IdRefs(m: IdMap)
    requires Final(m)
    ensures KeepsRefs(IdText(m)) && KeepsRefs(Ids(m))
  {
    hide AllRefs, Final, Look;
    forall v: Json, w: Json | IdText(m)(v) == Ok(w) || IdMember(m)(v) == Ok(w) ensures AllRefs(w) == AllRefs(v) {
      if v.Str? { LookRefs(m, v.s); }
    }
    assert KeepsRefs(IdText(m)) && KeepsRefs(IdMember(m));
    InArrRefs(IdMember(m));
  }

  lemma NameRefs(name: string)
    ensures AllRefs(Str(RenamedName(name))) == AllRefs(Str(name))
  {
    hide AllRefs, R.Refs;
    OneText(name);
    OneText(RenamedName(name));
    if RenamedName(name) != name {
      PlainRefs(name, "");
      PlainRefs(RenamedName(name), "");
      assert name + "" == name && RenamedName(name) + "" == RenamedName(name);
    }
  }

  lemma NameInObjRefs()
    ensures KeepsRefs(NameInObj())
  {
    forall v: Json, w: Json | NameInObj()(v) == Ok(w) ensures AllRefs(w) == AllRefs(v) {
      if v.Obj? {
        NamePut(v.fields, w);
      }
    }
  }

  lemma NamePut(fields: Fields, w: Json)
    requires NameInObj()(Obj(fields)) == Ok(w)
    ensures AllRefs(w) == AllRefs(Obj(fields))
  {
    hide AllRefs, RenamedName, RefsIn, FieldTexts;
    var name := Get(fields, "component_name");
    var was := if name.Some? then name.value else Null;
    var now := if was.Str? then Str(RenamedName(was.s)) else was;
    if was.Str? { NameRefs(was.s); }
    NoTexts();
    PutRefs(fields, "component_name", now);
    ObjRefs(fields);
    ObjRefs(Put(fields, "component_name", now));
  }

  lemma NoTexts()
    ensures AllRefs(Null) == []
  {
  }

  lemma ComponentStepsRefs(m: IdMap)
    requires Final(m)
    ensures KeepsRefs(InObj(ComponentSteps(m)))
  {
    hide Final, InObj, Ids, IdText, NameInObj, KeepsRefs;
    IdRefs(m);
    NameInObjRefs();
    InObjRefs(ComponentSteps(m));
  }

  lemma RewrittenFirst(m: IdMap, v: Json, w: Json)
    requires Component(m)(v) == Ok(w)
    ensures InObj(ComponentSteps(m))(RewriteValue(m, v)) == Ok(w)
  {
    hide RewriteValue, InObj, ComponentSteps;
  }

  /** The references of a migrated component are those of the rewritten one. */
  lemma ComponentKeepsRefs(m: IdMap, v: Json, w: Json)
    requires Final(m) && Component(m)(v) == Ok(w)
    ensures AllRefs(w) == AllRefs(RewriteValue(m, v))
  {
    hide Final, AllRefs, RewriteValue, InObj, ComponentSteps, Component, KeepsRefs;
    ComponentStepsRefs(m);
    RewrittenFirst(m, v, w);
    KeptBy(InObj(ComponentSteps(m)), RewriteValue(m, v), w);
  }

  lemma KeptBy(g: Transform, v: Json, w: Json)
    requires KeepsRefs(g) && g(v) == Ok(w)
    ensures AllRefs(w) == AllRefs(v)
  {
  }

  // ------------------------------------------------- the document

  /** y holds as many references as x, and they are the renamed ones exactly when no text of x
      that is a component id holds a reference that would be renamed. */
  ghost predicate RefsMoved(m: IdMap, x: Json, y: Json) {
    |AllRefs(y)| == |AllRefs(x)| && (AllRefs(y) == LookAll(m, AllRefs(x)) <==> AllCalm(m, Texts(x)))
  }

  ghost predicate PartMoved(m: IdMap, x: Option<Json>, y: Option<Json>) {
    match x
    case None => y.None?
    case Some(v) => y.Some? && RefsMoved(m, v, y.value)
  }

  /** The forms of the drawn nodes. */
  ghost predicate FormsMoved(m: IdMap, x: Option<seq<Json>>, y: Option<seq<Json>>) {
    match x
    case None => y.None?
    case Some(nodes) =>
      && y.Some? && |y.value| == |nodes|
      && forall j :: 0 <= j < |nodes| && nodes[j].Obj? ==>
           y.value[j].Obj? && PartMoved(m, FormOf(nodes[j].fields), FormOf(y.value[j].fields))
  }

  /** The fields that the migration names. */
  predicate MigratedKey(key: string) {
    key in ["components", "path", "graph", "history", "messages", "reference"]
  }

  lemma ComponentRefs(m: IdMap, v: Json, w: Json)
    requires Final(m) && Component(m)(v) == Ok(w)
    ensures RefsMoved(m, v, w)
  {
    hide Final, Component, AllRefs, Texts, AllCalm, RewriteValue;
    ComponentKeepsRefs(m, v, w);
    ValueRefs(m, v);
  }

  /** References in every component of the migrated document. */
  lemma ComponentsRefs(fields: Fields, done: Fields)
    requires Rebuild(IdsOf(Keys(fields)), fields, []) == Ok(done) && NoCollision(fields)
    ensures |done| == |fields|
    ensures forall i :: 0 <= i < |fields| ==>
      done[i].key == Rename(fields[i].key) && RefsMoved(IdsOf(Keys(fields)), fields[i].value, done[i].value)
  {
    hide Rebuild, IdsOf, NewKeys, NoRepeats, NoCollision, Covers, Final, Injective, RefsMoved, Rename, Keys;
    MapFacts(fields);
    EntriesRefs(IdsOf(Keys(fields)), fields, done);
  }

  lemma EntriesRefs(m: IdMap, fields: Fields, done: Fields)
    requires Rebuild(m, fields, []) == Ok(done) && NoCollision(fields) && Covers(m, fields) && Final(m)
    ensures |done| == |fields|
    ensures forall i :: 0 <= i < |fields| ==> done[i].key == Rename(fields[i].key) && RefsMoved(m, fields[i].value, done[i].value)
  {
    hide Rebuild, NewKeys, NoRepeats, NoCollision, Covers, Final, Keys, RefsMoved, Migrated, Continues, Rename;
    NoneKept(fields);
    RebuildEntries(m, fields, []);
    ContinuesNothing(m, fields, done);
    forall i | 0 <= i < |fields| ensures done[i].key == Rename(fields[i].key) && RefsMoved(m, fields[i].value, done[i].value) {
      EntryRefs(m, fields[i], done[i]);
    }
  }

  lemma EntryRefs(m: IdMap, f: Field, g: Field)
    requires Migrated(m, f, g) && Final(m)
    ensures g.key == Rename(f.key) && RefsMoved(m, f.value, g.value)
  {
    hide RefsMoved, Component, Rename, Final;
    ComponentRefs(m, f.value, g.value);
  }

  lemma PartRefs(m: IdMap, x: Option<Json>)
    requires Final(m)
    ensures PartMoved(m, x, Rewritten(m, x))
  {
    hide Final, AllRefs, Texts, AllCalm, RewriteValue;
    if x.Some? { ValueRefs(m, x.value); }
  }

  lemma HistoryRefs(top: Fields, fields: Fields, out: Fields, i: nat)
    requires Get(top, "components") == Some(Obj(fields)) && Migrate(Obj(top)) == Ok(Obj(out)) && 3 <= i < 6
    ensures var m, key := IdsOf(Keys(fields)), TopSteps(Keys(fields), IdsOf(Keys(fields)))[i].key;
      PartMoved(m, Get(top, key), Get(out, key))
  {
    hide IdsOf, RunSteps, TopSteps, Get, Migrate, PartMoved, RewriteValue, Rename, Final, Covers;
    var m := IdsOf(Keys(fields));
    MapFacts(fields);
    MigratedBySteps(top, fields, out);
    TopKeys(Keys(fields), m);
    var steps := TopSteps(Keys(fields), m);
    StepAt(top, steps, i);
    PartRefs(m, Get(top, steps[i].key));
  }

  lemma FormRefs(top: Fields, fields: Fields, out: Fields)
    requires Get(top, "components") == Some(Obj(fields)) && Migrate(Obj(top)) == Ok(Obj(out))
    ensures FormsMoved(IdsOf(Keys(fields)), Drawn(top, "nodes"), Drawn(out, "nodes"))
  {
    hide IdsOf, Get, Migrate, Drawn, FormOf, PartMoved, Rewritten, Rename, Final, Covers;
    var m := IdsOf(Keys(fields));
    MapFacts(fields);
    DocumentNodes(top, fields, out);
    var nodes, now := Drawn(top, "nodes"), Drawn(out, "nodes");
    if nodes.Some? {
      forall j | 0 <= j < |nodes.value| && nodes.value[j].Obj?
        ensures now.value[j].Obj? && PartMoved(m, FormOf(nodes.value[j].fields), FormOf(now.value[j].fields))
      {
        assert NodeRenamed(m, nodes.value[j], now.value[j]);
        PartRefs(m, FormOf(nodes.value[j].fields));
      }
    }
  }

  /** Fields of the document that the migration does not name stay as they are. */
  lemma OthersKept(top: Fields, fields: Fields, out: Fields, key: string)
    requires Get(top, "components") == Some(Obj(fields)) && Migrate(Obj(top)) == Ok(Obj(out)) && !MigratedKey(key)
    ensures Get(out, key) == Get(top, key)
  {
    hide IdsOf, RunSteps, TopSteps, Get, Migrate;
    MigratedBySteps(top, fields, out);
    TopKeys(Keys(fields), IdsOf(Keys(fields)));
    OtherKeys(top, TopSteps(Keys(fields), IdsOf(Keys(fields))), key);
  }

  /** Wherever the migration rewrites texts (in a component, in the form of a drawn node, in
      the history, the messages and the reference list) the k-th reference of the migrated part
      is the renamed k-th reference of the original; every other field of the document is as it
      was. */
  lemma ReferencesMoved(top: Fields, fields: Fields, out: Fields, key: string)
    requires Get(top, "components") == Some(Obj(fields)) && Migrate(Obj(top)) == Ok(Obj(out)) && NoCollision(fields)
    ensures Get(out, "components").Some? && Get(out, "components").value.Obj?
    ensures var m, done := IdsOf(Keys(fields)), Get(out, "components").value.fields;
      && |done| == |fields|
      && (forall i :: 0 <= i < |fields| ==> done[i].key == Rename(fields[i].key) && RefsMoved(m, fields[i].value, done[i].value))
      && FormsMoved(m, Drawn(top, "nodes"), Drawn(out, "nodes"))
      && (key in ["history", "messages", "reference"] ==> PartMoved(m, Get(top, key), Get(out, key)))
      && (!MigratedKey(key) ==> Get(out, key) == Get(top, key))
  {
    hide IdsOf, RunSteps, TopSteps, Get, Migrate, PartMoved, FormsMoved, RefsMoved, Drawn, NoCollision, Rebuild, Rename, MigratedKey;
    MigratedComponents(top, fields, out);
    ComponentsRefs(fields, Rebuild(IdsOf(Keys(fields)), fields, []).value);
    FormRefs(top, fields, out);
    TopKeys(Keys(fields), IdsOf(Keys(fields)));
    HistoryRefs(top, fields, out, 3);
    HistoryRefs(top, fields, out, 4);
    HistoryRefs(top, fields, out, 5);
    if !MigratedKey(key) { OthersKept(top, fields, out, key); }
  }

  /** A reference of a part whose references have moved resolves to the component it resolved
      to before, under its new id, and to no other. */
  lemma ReferencesResolve(fields: Fields, done: Fields, x: Json, y: Json, k: nat, i: nat)
    requires Rebuild(IdsOf(Keys(fields)), fields, []) == Ok(done) && NoCollision(fields)
    requires RefsMoved(IdsOf(Keys(fields)), x, y) && AllCalm(IdsOf(Keys(fields)), Texts(x))
    requires k < |AllRefs(x)| && i < |fields|
    ensures k < |AllRefs(y)| && |done| == |fields|
    ensures AllRefs(x)[k] == fields[i].key ==> AllRefs(y)[k] == done[i].key
    ensures AllRefs(x)[k] in Keys(fields) && AllRefs(y)[k] == done[i].key ==> AllRefs(x)[k] == fields[i].key
  {
    hide Rebuild, IdsOf, NoCollision, Covers, AllRefs, Texts, AllCalm, Rename, SameComponent, NoRepeats;
    var m := IdsOf(Keys(fields));
    MapFacts(fields);
    ComponentsSame(fields, done);
    assert SameComponent(m, fields[i], done[i]);
    NewId(m, fields[i], done[i]);
    assert Keys(fields)[i] == fields[i].key;
    var id := AllRefs(x)[k];
    assert AllRefs(y)[k] == Look(m, id);
  }

  lemma NewId(m: IdMap, f: Field, g: Field)
    requires SameComponent(m, f, g)
    ensures g.key == Rename(f.key)
  {
    hide Rename, ListRenamed, ParentOf;
  }
}
