/** A second run of the migration changes nothing. */
module DslGraph {
  import opened Options
  import opened Json
  import opened DslMigration
  import R = VariableRefs

  // ------------------------------------------------- a second run

  lemma {:induction false} RewriteNothing(m: IdMap, v: Json)
    requires Identity(m)
    ensures RewriteValue(m, v) == v
    decreases v, 1
  {
    match v
    case Str(s) => R.SubstituteNothing(s, id => Look(m, id));
    case Arr(items) => RewriteNoItems(m, items);
    case Obj(fields) => RewriteNoFields(m, fields);
    case _ =>
  }

  lemma {:induction false} RewriteNoItems(m: IdMap, items: seq<Json>)
    requires Identity(m)
    ensures RewriteItems(m, items) == items
    decreases items, 0
  {
    if items != [] {
      RewriteNothing(m, items[0]);
      RewriteNoItems(m, items[1..]);
    }
  }

  lemma {:induction false} RewriteNoFields(m: IdMap, fields: Fields)
    requires Identity(m)
    ensures RewriteFields(m, fields) == fields
    decreases fields, 0
  {
    if fields != [] {
      RewriteNothing(m, fields[0].value);
      RewriteNoFields(m, fields[1..]);
    }
  }

  lemma RewriteSettles(m: IdMap, again: IdMap)
    requires Identity(again)
    ensures Settles(Rewrite(m), Rewrite(again))
  {
    forall w: Json ensures RewriteValue(again, w) == w { RewriteNothing(again, w); }
  }

  lemma SmallSettle(m: IdMap, again: IdMap)
    requires Identity(again)
    ensures Settles(IdText(m), IdText(again)) && Settles(Ids(m), Ids(again))
    ensures Settles(NameText(), NameText()) && Settles(TypeText(), TypeText())
  {
    assert Settles(IdMember(m), IdMember(again));
    ArrSettles(IdMember(m), IdMember(again));
  }

  lemma NameSettles()
    ensures Settles(NameInObj(), NameInObj())
  {
    forall v: Json, w: Json | NameInObj()(v) == Ok(w) ensures NameInObj()(w) == Ok(w) {
      if v.Obj? {
        var name := Get(v.fields, "component_name");
        var was := if name.Some? then name.value else Null;
        var now := if was.Str? then Str(RenamedName(was.s)) else was;
        GetPut(v.fields, "component_name", now, "component_name");
        PutSame(w.fields, "component_name", now);
      }
    }
  }

  /** What two transforms in a row produce, the second alone leaves as it is. */
  lemma ThenSettles(f: Transform, g: Transform, f': Transform, g': Transform)
    requires Settles(g, g') && forall w: Json :: f'(w) == Ok(w)
    ensures Settles(Then(f, g), Then(f', g'))
  {
  }

  lemma ComponentSettles(m: IdMap, again: IdMap)
    requires Identity(again)
    ensures Settles(Component(m), Component(again))
  {
    hide Settles, Ids, IdText, NameInObj, Rewrite;
    SmallSettle(m, again);
    NameSettles();
    var a, b := ComponentSteps(m), ComponentSteps(again);
    assert StepsSettle(a, b);
    ObjSettles(a, b);
    forall w: Json ensures Rewrite(again)(w) == Ok(w) { RewriteValueNothing(again, w); }
    ThenSettles(Rewrite(m), InObj(a), Rewrite(again), InObj(b));
  }

  lemma RewriteValueNothing(m: IdMap, w: Json)
    requires Identity(m)
    ensures Rewrite(m)(w) == Ok(w)
  {
    RewriteNothing(m, w);
  }

  // ------------------------------------------------- the components dictionary

  /** Keys all different and final, values all produced by the component transform. */
  ghost predicate Done(m: IdMap, fields: Fields) {
    && NoRepeats(Keys(fields))
    && (forall i :: 0 <= i < |fields| ==> Rename(fields[i].key) == fields[i].key)
    && (forall i :: 0 <= i < |fields| ==> Produced(m, fields[i].value))
  }

  ghost predicate Produced(m: IdMap, w: Json) {
    exists v :: Component(m)(v) == Ok(w)
  }

  lemma {:induction false} PutMembers(fields: Fields, key: string, w: Json)
    ensures forall i :: 0 <= i < |Put(fields, key, w)| ==> Put(fields, key, w)[i] == Field(key, w) || Put(fields, key, w)[i] in fields
    decreases |fields|
  {
    if fields != [] {
      PutMembers(fields[1..], key, w);
    }
  }

  lemma PutDone(m: IdMap, fields: Fields, key: string, w: Json)
    requires Done(m, fields) && Rename(key) == key && Produced(m, w)
    ensures Done(m, Put(fields, key, w))
  {
    hide Produced, Rename, Put;
    PutKeys(fields, key, w);
    PutMembers(fields, key, w);
  }

  lemma PutKeys(fields: Fields, key: string, v: Json)
    ensures Keys(Put(fields, key, v)) == if key in Keys(fields) then Keys(fields) else Keys(fields) + [key]
  {
    if key in Keys(fields) {
      PutOld(fields, key, v);
    } else {
      PutNew(fields, key, v);
      KeysAppend(fields, key, v);
    }
  }

  lemma {:induction false} RebuildDone(m: IdMap, fields: Fields, done: Fields)
    requires Done(m, done) && Rebuild(m, fields, done).Ok?
    requires forall i :: 0 <= i < |fields| ==> Rename(Look(m, fields[i].key)) == Look(m, fields[i].key)
    ensures Done(m, Rebuild(m, fields, done).value)
    decreases |fields|
  {
    hide Done, Rename, Look;
    if fields != [] {
      var w := Component(m)(fields[0].value).value;
      assert Produced(m, w);
      PutDone(m, done, Look(m, fields[0].key), w);
      RebuildDone(m, fields[1..], Put(done, Look(m, fields[0].key), w));
    }
  }

  /** Rebuilding what is done gives it back. */
  lemma {:induction false} RebuildAgain(m: IdMap, again: IdMap, done: Fields, i: nat)
    requires Done(m, done) && Identity(again) && i <= |done|
    ensures Rebuild(again, done[i..], done[..i]) == Ok(done)
    decreases |done| - i
  {
    if i < |done| {
      assert done[i..][0] == done[i] && done[i..][1..] == done[i + 1..];
      assert Produced(m, done[i].value);
      ComponentSettles(m, again);
      assert Component(again)(done[i].value) == Ok(done[i].value);
      FrontLacks(done, i);
      PutNew(done[..i], done[i].key, done[i].value);
      assert done[..i] + [done[i]] == done[..i + 1];
      hide Component;
      RebuildAgain(m, again, done, i + 1);
    } else {
      assert done[..i] == done && done[i..] == [];
    }
  }

  lemma FrontLacks(fields: Fields, i: nat)
    requires NoRepeats(Keys(fields)) && i < |fields|
    ensures fields[i].key !in Keys(fields[..i])
  {
    forall j | 0 <= j < i ensures Keys(fields[..i])[j] != fields[i].key {
      assert Keys(fields)[j] == fields[j].key && Keys(fields)[i] == fields[i].key;
    }
  }

  /** The id map of a component dictionary sends each key to a final id. */
  lemma LookFinal(fields: Fields, i: nat)
    requires i < |fields|
    ensures Rename(Look(IdsOf(Keys(fields)), fields[i].key)) == Look(IdsOf(Keys(fields)), fields[i].key)
    ensures Look(IdsOf(Keys(fields)), fields[i].key) == Rename(fields[i].key)
  {
    assert Keys(fields)[i] in Keys(fields);
    RenameSettles(fields[i].key);
  }

  lemma ComponentsDone(fields: Fields, done: Fields)
    requires Rebuild(IdsOf(Keys(fields)), fields, []) == Ok(done)
    ensures Done(IdsOf(Keys(fields)), done) && Identity(IdsOf(Keys(done)))
  {
    var m := IdsOf(Keys(fields));
    forall i | 0 <= i < |fields| ensures Rename(Look(m, fields[i].key)) == Look(m, fields[i].key) { LookFinal(fields, i); }
    RebuildDone(m, fields, []);
    forall k | k in IdsOf(Keys(done)) ensures IdsOf(Keys(done))[k] == k {
      var i :| 0 <= i < |done| && Keys(done)[i] == k;
      assert done[i].key == k;
    }
  }

  // ------------------------------------------------- idempotence

  lemma EdgeSettles(keys: seq<string>, m: IdMap, keys': seq<string>, again: IdMap)
    requires Identity(again)
    ensures Settles(EdgeId(keys, m), EdgeId(keys', again))
  {
    forall s: string ensures ReplaceIds(s, ByLength(keys'), again) == s { ReplaceNothing(s, ByLength(keys'), again); }
  }

  lemma {:induction false} ReplaceNothing(s: string, keys: seq<string>, m: IdMap)
    requires Identity(m)
    ensures ReplaceIds(s, keys, m) == s
    decreases |keys|
  {
    if keys != [] {
      ReplaceNothing(s, keys[..|keys| - 1], m);
      ReplaceSame(s, keys[|keys| - 1]);
    }
  }

  lemma {:induction false} ReplaceSame(s: string, w: string)
    ensures ReplaceAll(s, w, w) == s
    decreases |s|
  {
    if s != "" && w != "" {
      if w <= s {
        ReplaceSame(s[|w|..], w);
        assert w + s[|w|..] == s;
      } else {
        ReplaceSame(s[1..], w);
        assert [s[0]] + s[1..] == s;
      }
    }
  }

  lemma GraphSettles(keys: seq<string>, m: IdMap, keys': seq<string>, again: IdMap)
    requires Identity(again)
    ensures Settles(InObj(GraphSteps(keys, m)), InObj(GraphSteps(keys', again)))
  {
    hide Settles, IdText, NameText, TypeText, EdgeId, Rewrite, InObj, InArr;
    SmallSettle(m, again);
    RewriteSettles(m, again);
    EdgeSettles(keys, m, keys', again);
    assert StepsSettle(DataSteps(m), DataSteps(again));
    ObjSettles(DataSteps(m), DataSteps(again));
    assert StepsSettle(NodeSteps(m), NodeSteps(again));
    ObjSettles(NodeSteps(m), NodeSteps(again));
    ArrSettles(InObj(NodeSteps(m)), InObj(NodeSteps(again)));
    assert StepsSettle(EdgeSteps(keys, m), EdgeSteps(keys', again));
    ObjSettles(EdgeSteps(keys, m), EdgeSteps(keys', again));
    ArrSettles(InObj(EdgeSteps(keys, m)), InObj(EdgeSteps(keys', again)));
    assert StepsSettle(GraphSteps(keys, m), GraphSteps(keys', again));
    ObjSettles(GraphSteps(keys, m), GraphSteps(keys', again));
  }

  /** All steps but the components one, which is treated on its own. */
  lemma OtherStepsSettle(keys: seq<string>, m: IdMap, keys': seq<string>, again: IdMap)
    requires Identity(again)
    ensures StepsSettle(TopSteps(keys, m)[1..], TopSteps(keys', again)[1..])
    ensures forall i :: 1 <= i < 6 ==> TopSteps(keys, m)[i].key != "components"
  {
    hide Settles, Ids, Rewrite, InObj;
    SmallSettle(m, again);
    RewriteSettles(m, again);
    GraphSettles(keys, m, keys', again);
  }

  /** Migrating twice is migrating once, on every document and on every error. */
  lemma MigrateIdempotent(dsl: Json)
    ensures Migrate(dsl).Ok? ==> Migrate(Migrate(dsl).value) == Migrate(dsl)
  {
    if dsl.Obj? && Get(dsl.fields, "components").Some? && Get(dsl.fields, "components").value.Obj? && Migrate(dsl).Ok? {
      var fields := Get(dsl.fields, "components").value.fields;
      MigratedAgain(dsl.fields, fields, Migrate(dsl).value.fields);
    }
  }

  lemma MigratedAgain(top: Fields, fields: Fields, out: Fields)
    requires Get(top, "components") == Some(Obj(fields))
    requires RunSteps(top, TopSteps(Keys(fields), IdsOf(Keys(fields)))) == Ok(out)
    ensures Migrate(Obj(out)) == Ok(Obj(out))
  {
    hide Ids, Rewrite, InObj, Rebuild, GraphSteps, IdsOf;
    var keys := Keys(fields);
    var m := IdsOf(keys);
    var steps := TopSteps(keys, m);
    var done := Rebuild(m, fields, []).value;
    var first := Put(top, "components", Obj(done));
    assert steps[0].key == "components" && Components(m)(Obj(fields)) == Ok(Obj(done));
    assert RunStep(top, steps[0]) == Ok(first);
    ComponentsDone(fields, done);
    var keys' := Keys(done);
    var again := IdsOf(keys');
    OtherStepsSettle(keys, m, keys', again);
    OtherKeys(first, steps[1..], "components");
    GetPut(top, "components", Obj(done), "components");
    RebuildAgain(m, again, done, 0);
    assert done[0..] == done && done[..0] == [];
    assert Components(again)(Obj(done)) == Ok(Obj(done));
    PutSame(out, "components", Obj(done));
    var steps' := TopSteps(keys', again);
    assert RunStep(out, steps'[0]) == Ok(out);
    AgainFrom(first, steps[1..], steps'[1..], out);
  }
}
