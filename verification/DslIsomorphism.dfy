/** Without collisions of new ids the migrated workflow is the same graph, renamed. */
module DslIsomorphism {
  import opened Options
  import opened Json
  import opened DslMigration
  import opened DslGraph
  import R = VariableRefs

  // ------------------------------------------------- collisions

  function NewKeys(fields: Fields): (ks: seq<string>)
    ensures |ks| == |fields| && forall i :: 0 <= i < |ks| ==> ks[i] == Rename(fields[i].key)
  {
    seq(|fields|, i requires 0 <= i < |fields| => Rename(fields[i].key))
  }

  /** No two components get the same new id. */
  ghost predicate NoCollision(fields: Fields) {
    NoRepeats(NewKeys(fields))
  }

  ghost predicate Covers(m: IdMap, fields: Fields) {
    forall i :: 0 <= i < |fields| ==> Look(m, fields[i].key) == Rename(fields[i].key)
  }

  lemma NoRepeatsSplit(a: seq<string>, k: string, b: seq<string>)
    ensures k in a ==> !NoRepeats(a + ([k] + b))
    ensures a + ([k] + b) == (a + [k]) + b
  {
    if k in a {
      var i :| 0 <= i < |a| && a[i] == k;
      var all := a + ([k] + b);
      assert all[i] == k && all[|a|] == k;
    }
  }

  lemma NoRepeatsSnoc(a: seq<string>, k: string)
    requires NoRepeats(a) && k !in a
    ensures NoRepeats(a + [k])
  {
    forall i | 0 <= i < |a| ensures a[i] != k { assert a[i] in a; }
  }

  /** The migration keeps every component exactly when no two new ids collide. */
  lemma {:induction false} RebuildCount(m: IdMap, fields: Fields, done: Fields)
    requires Rebuild(m, fields, done).Ok? && Covers(m, fields) && NoRepeats(Keys(done))
    ensures |Rebuild(m, fields, done).value| <= |done| + |fields|
    ensures |Rebuild(m, fields, done).value| == |done| + |fields| <==> NoRepeats(Keys(done) + NewKeys(fields))
    decreases |fields|
  {
    hide Component, Rename, Look, NoRepeats;
    if fields == [] {
      assert Keys(done) + NewKeys(fields) == Keys(done);
    } else {
      var k, w := Look(m, fields[0].key), Component(m)(fields[0].value).value;
      assert NewKeys(fields) == [k] + NewKeys(fields[1..]);
      NoRepeatsSplit(Keys(done), k, NewKeys(fields[1..]));
      PutKeys(done, k, w);
      if k !in Keys(done) {
        NoRepeatsSnoc(Keys(done), k);
      }
      RebuildCount(m, fields[1..], Put(done, k, w));
    }
  }

  /** g is component f, migrated under its new id. */
  ghost predicate Migrated(m: IdMap, f: Field, g: Field) {
    Component(m)(f.value) == Ok(g.value) && g.key == Rename(f.key)
  }

  /** Without collisions the first component goes to the end of what is done. */
  lemma RebuildFirst(m: IdMap, fields: Fields, done: Fields) returns (g: Field)
    requires fields != [] && Rebuild(m, fields, done).Ok? && Covers(m, fields) && NoRepeats(Keys(done) + NewKeys(fields))
    ensures Migrated(m, fields[0], g) && Rebuild(m, fields, done) == Rebuild(m, fields[1..], done + [g])
    ensures Covers(m, fields[1..]) && NoRepeats(Keys(done + [g]) + NewKeys(fields[1..]))
  {
    hide Component, Rename, Look, NoRepeats;
    var k, w := Look(m, fields[0].key), Component(m)(fields[0].value).value;
    g := Field(k, w);
    assert NewKeys(fields) == [k] + NewKeys(fields[1..]);
    NoRepeatsSplit(Keys(done), k, NewKeys(fields[1..]));
    PutNew(done, k, w);
    KeysAppend(done, k, w);
  }

  /** r holds what is done and then each component, migrated under its new id. */
  ghost predicate Continues(m: IdMap, fields: Fields, done: Fields, r: Fields) {
    |r| == |done| + |fields| && done <= r && forall i :: 0 <= i < |fields| ==> Migrated(m, fields[i], r[|done| + i])
  }

  lemma ContinuesMore(m: IdMap, fields: Fields, done: Fields, g: Field, r: Fields)
    requires fields != [] && Migrated(m, fields[0], g) && Continues(m, fields[1..], done + [g], r)
    ensures Continues(m, fields, done, r)
  {
    hide Migrated;
    assert r[..|done|] == (done + [g])[..|done|] == done && r[|done|] == g;
    forall i | 0 <= i < |fields| ensures Migrated(m, fields[i], r[|done| + i]) {
      if i > 0 { assert Migrated(m, fields[1..][i - 1], r[|done + [g]| + (i - 1)]); }
    }
  }

  lemma ContinuesNothing(m: IdMap, fields: Fields, r: Fields)
    requires Continues(m, fields, [], r)
    ensures |r| == |fields| && forall i :: 0 <= i < |fields| ==> Migrated(m, fields[i], r[i])
  {
    hide Migrated;
    forall i | 0 <= i < |fields| ensures Migrated(m, fields[i], r[i]) {
      var done: Fields := [];
      assert Migrated(m, fields[i], r[|done| + i]);
    }
  }

  /** Without collisions entry i of the result is component i, migrated under its new id. */
  lemma {:induction false} RebuildEntries(m: IdMap, fields: Fields, done: Fields)
    requires Rebuild(m, fields, done).Ok? && Covers(m, fields) && NoRepeats(Keys(done) + NewKeys(fields))
    ensures Continues(m, fields, done, Rebuild(m, fields, done).value)
    decreases |fields|
  {
    if fields == [] {
      assert Rebuild(m, fields, done).value == done;
    } else {
      hide Rebuild, Covers, Keys, NewKeys, NoRepeats, Migrated, Continues;
      var g := RebuildFirst(m, fields, done);
      RebuildEntries(m, fields[1..], done + [g]);
      ContinuesMore(m, fields, done, g, Rebuild(m, fields, done).value);
    }
  }

  // ------------------------------------------------- values and steps

  lemma {:induction false} GetRewritten(m: IdMap, fields: Fields, key: string)
    ensures Get(RewriteFields(m, fields), key)
      == if Get(fields, key).None? then None else Some(RewriteValue(m, Get(fields, key).value))
    decreases |fields|
  {
    if fields != [] {
      GetRewritten(m, fields[1..], key);
    }
  }

  lemma {:induction false} RewrittenItem(m: IdMap, items: seq<Json>, i: nat)
    requires i < |items|
    ensures RewriteItems(m, items)[i] == RewriteValue(m, items[i])
    decreases |items|
  {
    if i > 0 {
      RewrittenItem(m, items[1..], i - 1);
    }
  }

  /** After all steps a key holds its transformed value. */
  lemma {:induction false} StepAt(fields: Fields, steps: seq<Step>, i: nat)
    requires RunSteps(fields, steps).Ok? && i < |steps|
    requires forall a, b :: 0 <= a < b < |steps| ==> steps[a].key != steps[b].key
    ensures var v := Get(fields, steps[i].key);
      if v.None? then Get(RunSteps(fields, steps).value, steps[i].key) == None
      else steps[i].g(v.value).Ok? && Get(RunSteps(fields, steps).value, steps[i].key) == Some(steps[i].g(v.value).value)
    decreases |steps|
  {
    var r := RunStep(fields, steps[0]).value;
    var v := Get(fields, steps[0].key);
    if i == 0 {
      OtherKeys(r, steps[1..], steps[0].key);
      if v.Some? { GetPut(fields, steps[0].key, steps[0].g(v.value).value, steps[0].key); }
    } else {
      StepAt(r, steps[1..], i - 1);
      if v.Some? { GetPut(fields, steps[0].key, steps[0].g(v.value).value, steps[i].key); }
    }
  }

  // ------------------------------------------------- one entry

  ghost predicate Final(m: IdMap) {
    forall k :: k in m ==> m[k] == Rename(k)
  }

  ghost predicate Injective(m: IdMap) {
    forall j, k :: j in m && k in m && m[j] == m[k] ==> j == k
  }

  /** What an entry of a link list, or a parent, becomes: it is rewritten as text and then
      looked up. */
  function Image(m: IdMap, s: string): string {
    Look(m, RewriteText(m, s))
  }

  function EntryImage(m: IdMap, x: Json): Json {
    if x.Str? then Str(Image(m, x.s)) else x
  }

  /** An entry that names no component but reads as b, under its old or new id, once its
      references are renamed. */
  ghost predicate Stray(m: IdMap, s: string, b: string) {
    s !in m && (RewriteText(m, s) == b || RewriteText(m, s) == Rename(b))
  }

  /** Component ids go to their new ids, and only b and strays of b go to the new id of b. */
  lemma ImageOf(m: IdMap, s: string, b: string)
    requires Final(m) && Injective(m) && b in m
    ensures s in m ==> Image(m, s) == Rename(s)
    ensures Image(m, s) == Rename(b) <==> s == b || Stray(m, s, b)
  {
    hide R.Substitute, Rename;
    RenameSettles(s);
    RenameSettles(b);
    var t := RewriteText(m, s);
    if s in m {
      assert t == Rename(s) && (t in m ==> m[t] == Rename(t));
    }
  }

  /** A text without references is a stray of b exactly when it is the new id of b. */
  lemma PlainStray(m: IdMap, s: string, b: string)
    requires b in m && s !in m && R.Refs(s) == []
    ensures Stray(m, s, b) <==> s == Rename(b)
  {
    R.SubstituteNothing(s, id => Look(m, id));
  }

  // ------------------------------------------------- one component

  /** What the i-th key of a migrated component holds. */
  lemma ComponentAt(m: IdMap, fields: Fields, w: Json, i: nat)
    requires Component(m)(Obj(fields)) == Ok(w) && i < 4
    ensures var step := ComponentSteps(m)[i];
      var v := Get(fields, step.key);
      && w.Obj?
      && if v.None? then Get(w.fields, step.key) == None
         else step.g(RewriteValue(m, v.value)).Ok? && Get(w.fields, step.key) == Some(step.g(RewriteValue(m, v.value)).value)
  {
    hide RunSteps, RewriteFields, ComponentSteps;
    ComponentKeys(m);
    var steps := ComponentSteps(m);
    var out := ComponentRuns(m, fields, w);
    hide Component, RewriteValue, Get;
    GetRewritten(m, fields, steps[i].key);
    StepAt(RewriteFields(m, fields), steps, i);
  }

  lemma ComponentKeys(m: IdMap)
    ensures var steps := ComponentSteps(m);
      |steps| == 4 && (forall a, b :: 0 <= a < b < |steps| ==> steps[a].key != steps[b].key)
      && steps[0] == Step("obj", NameInObj())
  {
    hide Ids, IdText, NameInObj;
  }

  lemma ComponentRuns(m: IdMap, fields: Fields, w: Json) returns (out: Fields)
    requires Component(m)(Obj(fields)) == Ok(w)
    ensures RunSteps(RewriteFields(m, fields), ComponentSteps(m)) == Ok(out) && w == Obj(out)
  {
    hide RunSteps, RewriteFields, ComponentSteps;
    assert RewriteValue(m, Obj(fields)) == Obj(RewriteFields(m, fields));
    assert InObj(ComponentSteps(m))(Obj(RewriteFields(m, fields))) == Ok(w);
    out := w.fields;
  }

  lemma NotAnObject(m: IdMap, v: Json, w: Json)
    requires Component(m)(v) == Ok(w) && !v.Obj?
    ensures !w.Obj?
  {
  }

  /** The entries under a key of a component, when they are a list. */
  function ListOf(v: Json, list: string): Option<seq<Json>> {
    if !v.Obj? then None else
    var l := Get(v.fields, list);
    if l.None? || !l.value.Arr? then None else Some(l.value.items)
  }

  /** The parent of a component. */
  function ParentOf(v: Json): Option<string> {
    if !v.Obj? then None else
    var p := Get(v.fields, "parent_id");
    if p.None? || !p.value.Str? then None else Some(p.value.s)
  }

  /** The list of w is the list of v, entry by entry. */
  ghost predicate ListRenamed(m: IdMap, v: Json, w: Json, list: string) {
    match ListOf(v, list)
    case None => ListOf(w, list).None?
    case Some(items) =>
      && ListOf(w, list).Some? && |ListOf(w, list).value| == |items|
      && forall k :: 0 <= k < |items| ==> ListOf(w, list).value[k] == EntryImage(m, items[k])
  }

  /** A migrated component has the same two lists, entry by entry. */
  lemma ListImage(m: IdMap, v: Json, w: Json, list: string)
    requires Component(m)(v) == Ok(w) && (list == "downstream" || list == "upstream")
    ensures ListRenamed(m, v, w, list)
  {
    hide Component, RewriteItems, Get, EntryImage, MapAll;
    if v.Obj? {
      ComponentAt(m, v.fields, w, if list == "downstream" then 1 else 2);
      var l := Get(v.fields, list);
      if l.Some? {
        ListedImage(m, l.value, Get(w.fields, list).value);
      }
    } else {
      NotAnObject(m, v, w);
    }
  }

  lemma ListedImage(m: IdMap, v: Json, w: Json)
    requires Ids(m)(RewriteValue(m, v)) == Ok(w)
    ensures w.Arr? <==> v.Arr?
    ensures v.Arr? ==> |w.items| == |v.items| && forall k :: 0 <= k < |v.items| ==> w.items[k] == EntryImage(m, v.items[k])
  {
    hide RewriteItems, MapAll, RewriteText, Look;
    if v.Arr? {
      var mid := RewriteItems(m, v.items);
      if v.items == [] {
        assert MapAll(mid, IdMember(m)) == Ok([]) by { MapNone(IdMember(m)); }
      } else {
        MapAt(mid, IdMember(m), 0);
      }
      forall k | 0 <= k < |v.items| ensures w.items[k] == EntryImage(m, v.items[k]) {
        MapAt(mid, IdMember(m), k);
        RewrittenItem(m, v.items, k);
        MemberImage(m, v.items[k], w.items[k]);
      }
    }
  }

  lemma MapNone(g: Transform)
    ensures MapAll([], g) == Ok([])
  {
  }

  lemma MemberImage(m: IdMap, x: Json, y: Json)
    requires IdMember(m)(RewriteValue(m, x)) == Ok(y)
    ensures y == EntryImage(m, x)
  {
    hide RewriteText, RewriteItems, RewriteFields;
  }

  /** The parent of a migrated component. */
  lemma ParentImage(m: IdMap, v: Json, w: Json)
    requires Component(m)(v) == Ok(w)
    ensures match ParentOf(v)
            case None => ParentOf(w).None?
            case Some(p) => ParentOf(w) == Some(Image(m, p))
  {
    hide Component, Get, RewriteText;
    if v.Obj? {
      ComponentAt(m, v.fields, w, 3);
    } else {
      NotAnObject(m, v, w);
    }
  }

  // ------------------------------------------------- the whole graph

  lemma MapFacts(fields: Fields)
    ensures Covers(IdsOf(Keys(fields)), fields) && Final(IdsOf(Keys(fields)))
    ensures NoCollision(fields) ==> Injective(IdsOf(Keys(fields)))
  {
    hide Rename, NoCollision, Injective;
    var m := IdsOf(Keys(fields));
    forall i | 0 <= i < |fields| ensures Look(m, fields[i].key) == Rename(fields[i].key) { LookFinal(fields, i); }
    if NoCollision(fields) {
      MapInjective(fields);
    }
  }

  lemma MapInjective(fields: Fields)
    requires NoCollision(fields)
    ensures Injective(IdsOf(Keys(fields)))
  {
    hide Rename;
    var m, now := IdsOf(Keys(fields)), NewKeys(fields);
    forall j, k | j in m && k in m && m[j] == m[k] ensures j == k {
      var a :| 0 <= a < |fields| && Keys(fields)[a] == j;
      var b :| 0 <= b < |fields| && Keys(fields)[b] == k;
      assert now[a] == Rename(j) && now[b] == Rename(k);
    }
  }

  /** Components survive exactly without collisions. */
  lemma ComponentsKept(fields: Fields, done: Fields)
    requires Rebuild(IdsOf(Keys(fields)), fields, []) == Ok(done)
    ensures |done| <= |fields|
    ensures |done| == |fields| <==> NoCollision(fields)
  {
    hide Rebuild, IdsOf, Keys, NoCollision, Covers, Final, Injective, Rename;
    MapFacts(fields);
    KeptCount(IdsOf(Keys(fields)), fields, done);
  }

  lemma KeptCount(m: IdMap, fields: Fields, done: Fields)
    requires Rebuild(m, fields, []) == Ok(done) && Covers(m, fields)
    ensures |done| <= |fields|
    ensures |done| == |fields| <==> NoCollision(fields)
  {
    hide Rebuild, NewKeys, NoRepeats, NoCollision, Covers, Keys;
    NoneKept(fields);
    RebuildCount(m, fields, []);
  }

  lemma NoneKept(fields: Fields)
    ensures Keys([]) == [] && NoRepeats(Keys([])) && Keys([]) + NewKeys(fields) == NewKeys(fields)
    ensures NoCollision(fields) <==> NoRepeats(NewKeys(fields))
  {
  }

  /** Two ids that become the same: one of the two components is lost. */
  lemma CollidingIds()
    ensures var fields := [Field("Splitter:a", Num(1)), Field("TokenChunker:a", Num(2))];
      && !NoCollision(fields)
      && Migrate(Obj([Field("components", Obj(fields))])) == Ok(Obj([Field("components", Obj([Field("TokenChunker:a", Num(2))]))]))
  {
    var fields := [Field("Splitter:a", Num(1)), Field("TokenChunker:a", Num(2))];
    BothChunkers();
    assert NewKeys(fields)[0] == NewKeys(fields)[1];
    SecondWins(IdsOf(Keys(fields)), fields);
    OnlyComponents(fields, [Field("TokenChunker:a", Num(2))]);
  }

  lemma BothChunkers()
    ensures Rename("Splitter:a") == "TokenChunker:a" && Rename("TokenChunker:a") == "TokenChunker:a"
    ensures var m := IdsOf(Keys([Field("Splitter:a", Num(1)), Field("TokenChunker:a", Num(2))]));
      Look(m, "Splitter:a") == "TokenChunker:a" && Look(m, "TokenChunker:a") == "TokenChunker:a"
  {
    var fields := [Field("Splitter:a", Num(1)), Field("TokenChunker:a", Num(2))];
    LookFinal(fields, 0);
    LookFinal(fields, 1);
    assert "Splitter:a"[9..] == "a";
  }

  lemma SecondWins(m: IdMap, fields: Fields)
    requires fields == [Field("Splitter:a", Num(1)), Field("TokenChunker:a", Num(2))]
    requires Look(m, "Splitter:a") == "TokenChunker:a" && Look(m, "TokenChunker:a") == "TokenChunker:a"
    ensures Rebuild(m, fields, []) == Ok([Field("TokenChunker:a", Num(2))])
  {
    hide Look, Rename, ComponentSteps;
    var one := [Field("TokenChunker:a", Num(1))];
    var two := [Field("TokenChunker:a", Num(2))];
    assert Component(m)(Num(1)) == Ok(Num(1)) && Component(m)(Num(2)) == Ok(Num(2));
    assert Put([], "TokenChunker:a", Num(1)) == one && Put(one, "TokenChunker:a", Num(2)) == two;
    var rest := fields[1..];
    assert rest == [fields[1]] && rest[1..] == [];
    assert Rebuild(m, [], two) == Ok(two);
    assert Rebuild(m, rest, one) == Ok(two);
  }

  lemma OnlyComponents(fields: Fields, done: Fields)
    requires Rebuild(IdsOf(Keys(fields)), fields, []) == Ok(done)
    ensures Migrate(Obj([Field("components", Obj(fields))])) == Ok(Obj([Field("components", Obj(done))]))
  {
    hide Rebuild, IdsOf, TopSteps, Rename;
    var steps := TopSteps(Keys(fields), IdsOf(Keys(fields)));
    TopKeys(Keys(fields), IdsOf(Keys(fields)));
    var top := [Field("components", Obj(fields))];
    var out := [Field("components", Obj(done))];
    assert Components(IdsOf(Keys(fields)))(Obj(fields)) == Ok(Obj(done));
    assert steps[0].key == "components" && Get(top, "components") == Some(Obj(fields));
    assert Put(top, "components", Obj(done)) == out;
    assert RunStep(top, steps[0]) == Ok(out);
    forall i | 1 <= i < 6 ensures Get(out, steps[i].key) == None { assert steps[0].key != steps[i].key; }
    NoKeys(out, steps[1..]);
  }

  lemma {:induction false} NoKeys(fields: Fields, steps: seq<Step>)
    requires forall i :: 0 <= i < |steps| ==> Get(fields, steps[i].key) == None
    ensures RunSteps(fields, steps) == Ok(fields)
    decreases |steps|
  {
    if steps != [] {
      NoKeys(fields, steps[1..]);
    }
  }

  /** Entry k of the list of component i is b. */
  ghost predicate LinkAt(components: Fields, list: string, i: nat, k: nat, b: string) {
    && i < |components| && ListOf(components[i].value, list).Some?
    && k < |ListOf(components[i].value, list).value| && ListOf(components[i].value, list).value[k] == Str(b)
  }

  /** Entry k of the list of component i is a stray of b. */
  ghost predicate StrayAt(m: IdMap, components: Fields, list: string, i: nat, k: nat, b: string) {
    && i < |components| && ListOf(components[i].value, list).Some?
    && k < |ListOf(components[i].value, list).value|
    && var x := ListOf(components[i].value, list).value[k]; x.Str? && Stray(m, x.s, b)
  }

  ghost predicate Links(components: Fields, list: string, a: string, b: string) {
    exists i: nat, k: nat :: LinkAt(components, list, i, k, b) && components[i].key == a
  }

  ghost predicate StrayLink(m: IdMap, components: Fields, list: string, a: string, b: string) {
    exists i: nat, k: nat :: StrayAt(m, components, list, i, k, b) && components[i].key == a
  }

  /** Entry i of the new dictionary is component i under its new id, with the same lists entry
      by entry and the same parent. */
  ghost predicate SameComponent(m: IdMap, f: Field, g: Field) {
    && g.key == Rename(f.key)
    && ListRenamed(m, f.value, g.value, "downstream") && ListRenamed(m, f.value, g.value, "upstream")
    && match ParentOf(f.value)
       case None => ParentOf(g.value).None?
       case Some(p) => ParentOf(g.value) == Some(Image(m, p))
  }

  ghost predicate SameComponents(m: IdMap, fields: Fields, done: Fields) {
    |done| == |fields| && forall i :: 0 <= i < |fields| ==> SameComponent(m, fields[i], done[i])
  }

  lemma ComponentSame(m: IdMap, f: Field, g: Field)
    requires Migrated(m, f, g)
    ensures SameComponent(m, f, g)
  {
    hide Component, ListRenamed, ParentOf, Image, Rename;
    ListImage(m, f.value, g.value, "downstream");
    ListImage(m, f.value, g.value, "upstream");
    ParentImage(m, f.value, g.value);
  }

  lemma ComponentsSame(fields: Fields, done: Fields)
    requires Rebuild(IdsOf(Keys(fields)), fields, []) == Ok(done) && NoCollision(fields)
    ensures SameComponents(IdsOf(Keys(fields)), fields, done) && NoRepeats(Keys(done))
  {
    hide Rebuild, IdsOf, NewKeys, NoRepeats, NoCollision, Covers, Final, Injective, SameComponents, Rename;
    MapFacts(fields);
    EntriesSame(IdsOf(Keys(fields)), fields, done);
  }

  lemma EntriesSame(m: IdMap, fields: Fields, done: Fields)
    requires Rebuild(m, fields, []) == Ok(done) && NoCollision(fields) && Covers(m, fields)
    ensures SameComponents(m, fields, done) && NoRepeats(Keys(done))
  {
    hide Rebuild, NewKeys, NoRepeats, NoCollision, Covers, SameComponents, Migrated, Continues, Keys;
    NoneKept(fields);
    RebuildEntries(m, fields, []);
    ContinuesNothing(m, fields, done);
    AllSame(m, fields, done);
  }

  lemma AllSame(m: IdMap, fields: Fields, done: Fields)
    requires |done| == |fields| && forall i :: 0 <= i < |fields| ==> Migrated(m, fields[i], done[i])
    ensures SameComponents(m, fields, done) && Keys(done) == NewKeys(fields)
  {
    hide SameComponent, Component, Rename;
    forall i | 0 <= i < |fields| ensures SameComponent(m, fields[i], done[i]) && done[i].key == Rename(fields[i].key) {
      assert Migrated(m, fields[i], done[i]);
      ComponentSame(m, fields[i], done[i]);
    }
  }

  /** Entry k of a new list is the new id of b exactly where entry k of the old list is b or a
      stray of b. */
  lemma EntriesRenamed(m: IdMap, fields: Fields, done: Fields, list: string, i: nat, k: nat, b: string)
    requires Final(m) && Injective(m) && b in m && SameComponents(m, fields, done)
    requires list == "downstream" || list == "upstream"
    ensures LinkAt(done, list, i, k, Rename(b)) <==> LinkAt(fields, list, i, k, b) || StrayAt(m, fields, list, i, k, b)
  {
    hide Final, Injective, Rename, Stray, Image, ListOf, ParentOf;
    if i < |fields| {
      assert SameComponent(m, fields[i], done[i]);
      var l := ListOf(fields[i].value, list);
      if l.Some? && k < |l.value| && l.value[k].Str? {
        ImageOf(m, l.value[k].s, b);
      }
    }
  }

  /** Downstream and upstream links are the renamed ones, and those that strays add. */
  lemma LinksRenamed(m: IdMap, fields: Fields, done: Fields, list: string, a: string, b: string)
    requires Final(m) && Injective(m) && a in m && b in m && SameComponents(m, fields, done)
    requires (list == "downstream" || list == "upstream") && forall i :: 0 <= i < |fields| ==> fields[i].key in m
    ensures Links(done, list, Rename(a), Rename(b)) <==> Links(fields, list, a, b) || StrayLink(m, fields, list, a, b)
  {
    hide LinkAt, StrayAt, Rename, ListRenamed, ParentOf;
    forall i: nat, k: nat
      ensures LinkAt(done, list, i, k, Rename(b)) <==> LinkAt(fields, list, i, k, b) || StrayAt(m, fields, list, i, k, b)
    {
      EntriesRenamed(m, fields, done, list, i, k, b);
    }
    LinkInside(fields, done, list, b);
    forall i | 0 <= i < |fields| ensures done[i].key == Rename(a) <==> fields[i].key == a {
      assert SameComponent(m, fields[i], done[i]);
      assert m[fields[i].key] == Rename(fields[i].key) && m[a] == Rename(a);
    }
    LinksSame(m, fields, done, list, a, b);
  }

  lemma LinkInside(fields: Fields, done: Fields, list: string, b: string)
    ensures forall i: nat, k: nat :: LinkAt(done, list, i, k, Rename(b)) ==> i < |done|
    ensures forall m: IdMap, i: nat, k: nat :: StrayAt(m, fields, list, i, k, b) ==> i < |fields|
    ensures forall i: nat, k: nat :: LinkAt(fields, list, i, k, b) ==> i < |fields|
  {
    hide Rename, Stray, ListOf;
  }

  lemma LinksSame(m: IdMap, fields: Fields, done: Fields, list: string, a: string, b: string)
    requires |done| == |fields| && forall i :: 0 <= i < |fields| ==> (done[i].key == Rename(a) <==> fields[i].key == a)
    requires forall i: nat, k: nat ::
      LinkAt(done, list, i, k, Rename(b)) <==> LinkAt(fields, list, i, k, b) || StrayAt(m, fields, list, i, k, b)
    ensures Links(done, list, Rename(a), Rename(b)) <==> Links(fields, list, a, b) || StrayLink(m, fields, list, a, b)
  {
    LinkInside(fields, done, list, b);
    hide LinkAt, StrayAt, Rename;
    if Links(done, list, Rename(a), Rename(b)) {
      var i: nat, k: nat :| LinkAt(done, list, i, k, Rename(b)) && done[i].key == Rename(a);
      assert fields[i].key == a;
    }
    if Links(fields, list, a, b) {
      var i: nat, k: nat :| LinkAt(fields, list, i, k, b) && fields[i].key == a;
      assert done[i].key == Rename(a) && LinkAt(done, list, i, k, Rename(b));
    }
    if StrayLink(m, fields, list, a, b) {
      var i: nat, k: nat :| StrayAt(m, fields, list, i, k, b) && fields[i].key == a;
      assert done[i].key == Rename(a) && LinkAt(done, list, i, k, Rename(b));
    }
  }

  /** Every listed component exists. */
  ghost predicate Closed(m: IdMap, components: Fields, list: string) {
    forall i: nat, k: nat :: Listed(components, list, i, k) ==>
      ListOf(components[i].value, list).value[k].Str? && ListOf(components[i].value, list).value[k].s in m
  }

  ghost predicate Listed(components: Fields, list: string, i: nat, k: nat) {
    i < |components| && ListOf(components[i].value, list).Some? && k < |ListOf(components[i].value, list).value|
  }

  lemma ClosedNoStray(m: IdMap, fields: Fields, list: string, a: string, b: string)
    requires Closed(m, fields, list)
    ensures !StrayLink(m, fields, list, a, b)
  {
    forall i: nat, k: nat ensures !StrayAt(m, fields, list, i, k, b) {
      if StrayAt(m, fields, list, i, k, b) {
        assert Listed(fields, list, i, k);
      }
    }
  }

  // ------------------------------------------------- the drawn graph

  /** A text is looked up, anything else stays. */
  function LookUp(m: IdMap, x: Option<Json>): Option<Json> {
    if x.Some? && x.value.Str? then Some(Str(Look(m, x.value.s))) else x
  }

  function Rewritten(m: IdMap, x: Option<Json>): Option<Json> {
    if x.Some? then Some(RewriteValue(m, x.value)) else None
  }

  /** The drawn nodes or edges of a document. */
  function Drawn(top: Fields, list: string): Option<seq<Json>> {
    var graph := Get(top, "graph");
    if graph.None? then None else ListOf(graph.value, list)
  }

  function FormOf(node: Fields): Option<Json> {
    var data := Get(node, "data");
    if data.None? || !data.value.Obj? then None else Get(data.value.fields, "form")
  }

  /** The drawn node y is x with its id, its parent and the texts of its form renamed. */
  ghost predicate NodeRenamed(m: IdMap, x: Json, y: Json) {
    if !x.Obj? then y == x else
    && y.Obj?
    && Get(y.fields, "id") == LookUp(m, Get(x.fields, "id"))
    && Get(y.fields, "parentId") == LookUp(m, Get(x.fields, "parentId"))
    && FormOf(y.fields) == Rewritten(m, FormOf(x.fields))
  }

  /** The drawn edge y is x with both ends renamed. */
  ghost predicate EdgeRenamed(m: IdMap, x: Json, y: Json) {
    if !x.Obj? then y == x else
    && y.Obj?
    && Get(y.fields, "source") == LookUp(m, Get(x.fields, "source"))
    && Get(y.fields, "target") == LookUp(m, Get(x.fields, "target"))
  }

  /** The same nodes in the same order, renamed. */
  ghost predicate NodesRenamed(m: IdMap, top: Fields, out: Fields) {
    match Drawn(top, "nodes")
    case None => Drawn(out, "nodes").None?
    case Some(nodes) =>
      && Drawn(out, "nodes").Some? && |Drawn(out, "nodes").value| == |nodes|
      && forall j :: 0 <= j < |nodes| ==> NodeRenamed(m, nodes[j], Drawn(out, "nodes").value[j])
  }

  /** The same edges in the same order, renamed. */
  ghost predicate EdgesRenamed(m: IdMap, top: Fields, out: Fields) {
    match Drawn(top, "edges")
    case None => Drawn(out, "edges").None?
    case Some(edges) =>
      && Drawn(out, "edges").Some? && |Drawn(out, "edges").value| == |edges|
      && forall j :: 0 <= j < |edges| ==> EdgeRenamed(m, edges[j], Drawn(out, "edges").value[j])
  }

  /** A drawn id becomes the new id of b exactly where it was b, or where it was no component's
      but already read like the new id. */
  lemma DrawnId(m: IdMap, s: string, b: string)
    requires Final(m) && Injective(m) && b in m
    ensures Look(m, s) == Rename(b) <==> s == b || (s !in m && s == Rename(b))
  {
  }

  lemma IdStep(m: IdMap, fields: Fields, steps: seq<Step>, i: nat, out: Fields)
    requires RunSteps(fields, steps) == Ok(out) && i < |steps|
    requires forall a, b :: 0 <= a < b < |steps| ==> steps[a].key != steps[b].key
    requires steps[i].g == IdText(m)
    ensures Get(out, steps[i].key) == LookUp(m, Get(fields, steps[i].key))
  {
    hide Get, RunSteps, Look;
    StepAt(fields, steps, i);
    if Get(fields, steps[i].key).Some? { IdTextIs(m, Get(fields, steps[i].key).value); }
  }

  lemma IdTextIs(m: IdMap, v: Json)
    ensures IdText(m)(v) == Ok(LookUp(m, Some(v)).value)
  {
  }

  lemma NodeKeys(m: IdMap)
    ensures var steps := NodeSteps(m);
      && |steps| == 4 && (forall a, b :: 0 <= a < b < |steps| ==> steps[a].key != steps[b].key)
      && steps[0] == Step("id", IdText(m)) && steps[1] == Step("parentId", IdText(m))
      && steps[2] == Step("type", TypeText()) && steps[3] == Step("data", InObj(DataSteps(m)))
  {
    hide IdText, TypeText, DataSteps, InObj;
  }

  lemma DataKeys(m: IdMap)
    ensures var steps := DataSteps(m);
      && |steps| == 3 && (forall a, b :: 0 <= a < b < |steps| ==> steps[a].key != steps[b].key)
      && steps[0] == Step("label", NameText()) && steps[1] == Step("name", NameText()) && steps[2] == Step("form", Rewrite(m))
  {
    hide NameText, Rewrite;
  }

  lemma DataForm(m: IdMap, v: Json, w: Json)
    requires InObj(DataSteps(m))(v) == Ok(w)
    ensures v.Obj? <==> w.Obj?
    ensures v.Obj? ==> Get(w.fields, "form") == Rewritten(m, Get(v.fields, "form"))
  {
    hide Get, RunSteps, DataSteps, RewriteValue;
    DataKeys(m);
    if v.Obj? {
      StepAt(v.fields, DataSteps(m), 2);
    }
  }

  lemma NodeImage(m: IdMap, x: Json, y: Json)
    requires InObj(NodeSteps(m))(x) == Ok(y)
    ensures NodeRenamed(m, x, y)
  {
    hide Get, RunSteps, NodeSteps, DataSteps, IdText, LookUp, RewriteValue;
    NodeKeys(m);
    if x.Obj? {
      var steps := NodeSteps(m);
      IdStep(m, x.fields, steps, 0, y.fields);
      IdStep(m, x.fields, steps, 1, y.fields);
      NodeForm(m, x.fields, y.fields);
    }
  }

  lemma NodeForm(m: IdMap, node: Fields, out: Fields)
    requires RunSteps(node, NodeSteps(m)) == Ok(out)
    ensures FormOf(out) == Rewritten(m, FormOf(node))
  {
    hide Get, RunSteps, NodeSteps, InObj, DataSteps, RewriteValue;
    NodeKeys(m);
    StepAt(node, NodeSteps(m), 3);
    var data := Get(node, "data");
    if data.Some? {
      DataForm(m, data.value, InObj(DataSteps(m))(data.value).value);
    }
  }

  lemma EdgeKeys(keys: seq<string>, m: IdMap)
    ensures var steps := EdgeSteps(keys, m);
      && |steps| == 3 && (forall a, b :: 0 <= a < b < |steps| ==> steps[a].key != steps[b].key)
      && steps[0] == Step("source", IdText(m)) && steps[1] == Step("target", IdText(m)) && steps[2] == Step("id", EdgeId(keys, m))
  {
    hide IdText, EdgeId;
  }

  lemma EdgeImage(keys: seq<string>, m: IdMap, x: Json, y: Json)
    requires InObj(EdgeSteps(keys, m))(x) == Ok(y)
    ensures EdgeRenamed(m, x, y)
  {
    hide Get, RunSteps, EdgeSteps, IdText, LookUp;
    EdgeKeys(keys, m);
    if x.Obj? {
      IdStep(m, x.fields, EdgeSteps(keys, m), 0, y.fields);
      IdStep(m, x.fields, EdgeSteps(keys, m), 1, y.fields);
    }
  }

  // ------------------------------------------------- documents

  lemma TopKeys(keys: seq<string>, m: IdMap)
    ensures var steps := TopSteps(keys, m);
      && |steps| == 6 && (forall a, b :: 0 <= a < b < |steps| ==> steps[a].key != steps[b].key)
      && steps[0] == Step("components", Components(m)) && steps[1] == Step("path", Ids(m))
      && steps[2] == Step("graph", InObj(GraphSteps(keys, m)))
      && steps[3] == Step("history", Rewrite(m)) && steps[4] == Step("messages", Rewrite(m))
      && steps[5] == Step("reference", Rewrite(m))
  {
    hide Components, Ids, InObj, GraphSteps, Rewrite;
  }

  lemma MigratedBySteps(top: Fields, fields: Fields, out: Fields)
    requires Get(top, "components") == Some(Obj(fields)) && Migrate(Obj(top)) == Ok(Obj(out))
    ensures RunSteps(top, TopSteps(Keys(fields), IdsOf(Keys(fields)))) == Ok(out)
  {
    hide Get, RunSteps, TopSteps, IdsOf;
  }

  /** The components of a migrated document. */
  lemma MigratedComponents(top: Fields, fields: Fields, out: Fields)
    requires Get(top, "components") == Some(Obj(fields)) && Migrate(Obj(top)) == Ok(Obj(out))
    ensures Rebuild(IdsOf(Keys(fields)), fields, []).Ok?
    ensures Get(out, "components") == Some(Obj(Rebuild(IdsOf(Keys(fields)), fields, []).value))
  {
    hide Rebuild, IdsOf, RunSteps, TopSteps, Get, Migrate;
    MigratedBySteps(top, fields, out);
    TopKeys(Keys(fields), IdsOf(Keys(fields)));
    StepAt(top, TopSteps(Keys(fields), IdsOf(Keys(fields))), 0);
  }

  lemma GraphFields(top: Fields, fields: Fields, out: Fields)
    requires Get(top, "components") == Some(Obj(fields)) && Migrate(Obj(top)) == Ok(Obj(out))
    ensures var keys := Keys(fields);
      var graph := Get(top, "graph");
      && (graph.None? ==> Get(out, "graph") == None)
      && (graph.Some? ==> InObj(GraphSteps(keys, IdsOf(keys)))(graph.value).Ok?)
      && (graph.Some? ==> Get(out, "graph") == Some(InObj(GraphSteps(keys, IdsOf(keys)))(graph.value).value))
  {
    hide IdsOf, RunSteps, TopSteps, Get, Migrate, GraphSteps, InObj;
    MigratedBySteps(top, fields, out);
    TopKeys(Keys(fields), IdsOf(Keys(fields)));
    StepAt(top, TopSteps(Keys(fields), IdsOf(Keys(fields))), 2);
  }

  lemma GraphKeys(keys: seq<string>, m: IdMap)
    ensures GraphSteps(keys, m) == [Step("nodes", InArr(InObj(NodeSteps(m)))), Step("edges", InArr(InObj(EdgeSteps(keys, m))))]
    ensures "nodes" != "edges"
  {
  }

  /** What a step on the members of a list of the graph makes of it. */
  lemma GraphList(keys: seq<string>, m: IdMap, v: Json, w: Json, i: nat, g: Transform)
    requires InObj(GraphSteps(keys, m))(v) == Ok(w) && i < 2 && GraphSteps(keys, m)[i].g == InArr(g)
    ensures ListMapped(ListOf(v, GraphSteps(keys, m)[i].key), ListOf(w, GraphSteps(keys, m)[i].key), g)
  {
    hide RunSteps, NodeSteps, EdgeSteps, Get, MapAll;
    GraphKeys(keys, m);
    if v.Obj? {
      var steps := GraphSteps(keys, m);
      hide GraphSteps;
      StepAt(v.fields, steps, i);
      var l := Get(v.fields, steps[i].key);
      if l.Some? { ArrMapped(g, l.value, InArr(g)(l.value).value); }
    }
  }

  /** y is x with g applied to every member. */
  ghost predicate ListMapped(x: Option<seq<Json>>, y: Option<seq<Json>>, g: Transform) {
    match x
    case None => y.None?
    case Some(items) => y.Some? && |y.value| == |items| && forall k :: 0 <= k < |items| ==> g(items[k]) == Ok(y.value[k])
  }

  lemma ArrMapped(g: Transform, v: Json, w: Json)
    requires InArr(g)(v) == Ok(w)
    ensures v.Arr? <==> w.Arr?
    ensures v.Arr? ==> ListMapped(Some(v.items), Some(w.items), g)
  {
    if v.Arr? {
      forall k | 0 <= k < |v.items| ensures |w.items| == |v.items| && g(v.items[k]) == Ok(w.items[k]) { MapAt(v.items, g, k); }
    }
  }

  lemma DrawnMapped(top: Fields, fields: Fields, out: Fields, i: nat, g: Transform)
    requires Get(top, "components") == Some(Obj(fields)) && Migrate(Obj(top)) == Ok(Obj(out))
    requires i < 2 && GraphSteps(Keys(fields), IdsOf(Keys(fields)))[i].g == InArr(g)
    ensures var key := GraphSteps(Keys(fields), IdsOf(Keys(fields)))[i].key;
      ListMapped(Drawn(top, key), Drawn(out, key), g)
  {
    hide IdsOf, Get, Migrate, GraphSteps, InObj, InArr, ListMapped, ListOf;
    GraphFields(top, fields, out);
    var keys := Keys(fields);
    if Get(top, "graph").Some? {
      var v := Get(top, "graph").value;
      GraphList(keys, IdsOf(keys), v, InObj(GraphSteps(keys, IdsOf(keys)))(v).value, i, g);
    } else {
      NothingMapped(g);
    }
  }

  lemma NothingMapped(g: Transform)
    ensures ListMapped(None, None, g)
  {
  }

  /** Drawn node j of a migrated document is drawn node j of the original, renamed. */
  lemma DocumentNodes(top: Fields, fields: Fields, out: Fields)
    requires Get(top, "components") == Some(Obj(fields)) && Migrate(Obj(top)) == Ok(Obj(out))
    ensures NodesRenamed(IdsOf(Keys(fields)), top, out)
  {
    hide IdsOf, Get, Migrate, NodeSteps, InObj, Drawn, NodeRenamed;
    var m, keys := IdsOf(Keys(fields)), Keys(fields);
    GraphKeys(keys, m);
    var g := InObj(NodeSteps(m));
    DrawnMapped(top, fields, out, 0, g);
    var nodes, now := Drawn(top, "nodes"), Drawn(out, "nodes");
    if nodes.Some? {
      forall j | 0 <= j < |nodes.value| ensures NodeRenamed(m, nodes.value[j], now.value[j]) {
        NodeImage(m, nodes.value[j], now.value[j]);
      }
    }
  }

  /** Drawn edge j of a migrated document is drawn edge j of the original, with both ends
      renamed. */
  lemma DocumentEdges(top: Fields, fields: Fields, out: Fields)
    requires Get(top, "components") == Some(Obj(fields)) && Migrate(Obj(top)) == Ok(Obj(out))
    ensures EdgesRenamed(IdsOf(Keys(fields)), top, out)
  {
    hide IdsOf, Get, Migrate, EdgeSteps, InObj, Drawn, EdgeRenamed;
    var m, keys := IdsOf(Keys(fields)), Keys(fields);
    GraphKeys(keys, m);
    var g := InObj(EdgeSteps(keys, m));
    DrawnMapped(top, fields, out, 1, g);
    var edges, now := Drawn(top, "edges"), Drawn(out, "edges");
    if edges.Some? {
      forall j | 0 <= j < |edges.value| ensures EdgeRenamed(m, edges.value[j], now.value[j]) {
        EdgeImage(keys, m, edges.value[j], now.value[j]);
      }
    }
  }

  /** The path, entry by entry: texts are looked up, other entries stay. */
  ghost predicate PathLookedUp(m: IdMap, x: Option<Json>, y: Option<Json>) {
    if x.None? || !x.value.Arr? then y == x else
    && y.Some? && y.value.Arr? && |y.value.items| == |x.value.items|
    && forall i :: 0 <= i < |x.value.items| ==> Some(y.value.items[i]) == LookUp(m, Some(x.value.items[i]))
  }

  /** The path holds the renamed ids. */
  lemma PathRenamed(top: Fields, fields: Fields, out: Fields)
    requires Get(top, "components") == Some(Obj(fields)) && Migrate(Obj(top)) == Ok(Obj(out))
    ensures PathLookedUp(IdsOf(Keys(fields)), Get(top, "path"), Get(out, "path"))
  {
    hide IdsOf, RunSteps, TopSteps, Get, Migrate;
    var m := IdsOf(Keys(fields));
    MigratedBySteps(top, fields, out);
    TopKeys(Keys(fields), m);
    StepAt(top, TopSteps(Keys(fields), m), 1);
    var path := Get(top, "path");
    if path.Some? {
      PathMembers(m, path.value, Ids(m)(path.value).value);
    }
  }

  lemma PathMembers(m: IdMap, v: Json, w: Json)
    requires Ids(m)(v) == Ok(w)
    ensures PathLookedUp(m, Some(v), Some(w))
  {
    hide MapAll, Look;
    if v.Arr? {
      ArrMapped(IdMember(m), v, w);
    }
  }

  /** The parent of component a is b. */
  ghost predicate HasParent(components: Fields, a: string, b: string) {
    exists i :: 0 <= i < |components| && components[i].key == a && ParentOf(components[i].value) == Some(b)
  }

  /** The parent of component a is a stray of b. */
  ghost predicate StrayParent(m: IdMap, components: Fields, a: string, b: string) {
    exists i :: 0 <= i < |components| && components[i].key == a && ParentOf(components[i].value).Some?
      && Stray(m, ParentOf(components[i].value).value, b)
  }

  lemma ParentsRenamed(m: IdMap, fields: Fields, done: Fields, a: string, b: string)
    requires Final(m) && Injective(m) && a in m && b in m && SameComponents(m, fields, done)
    requires forall i :: 0 <= i < |fields| ==> fields[i].key in m
    ensures HasParent(done, Rename(a), Rename(b)) <==> HasParent(fields, a, b) || StrayParent(m, fields, a, b)
  {
    hide Rename, ListRenamed, ParentOf, Image, Stray;
    forall i | 0 <= i < |fields|
      ensures done[i].key == Rename(a) <==> fields[i].key == a
      ensures ParentOf(done[i].value) == Some(Rename(b)) <==>
        ParentOf(fields[i].value) == Some(b) || (ParentOf(fields[i].value).Some? && Stray(m, ParentOf(fields[i].value).value, b))
    {
      assert SameComponent(m, fields[i], done[i]);
      assert m[fields[i].key] == Rename(fields[i].key) && m[a] == Rename(a);
      var p := ParentOf(fields[i].value);
      if p.Some? { ImageOf(m, p.value, b); }
    }
  }

  /** Migration is an isomorphism of the workflow graph on documents without collisions: the
      same components with the same lists entry by entry and the same parents, and the same
      drawn nodes, edges and path, all under new ids. Links and parents between components are
      the renamed ones; the only ones added come from entries that name no component but read
      like one's old or new id. */
  lemma MigrationKeepsGraph(top: Fields, fields: Fields, out: Fields, a: string, b: string)
    requires Get(top, "components") == Some(Obj(fields)) && Migrate(Obj(top)) == Ok(Obj(out))
    requires NoCollision(fields) && a in Keys(fields) && b in Keys(fields)
    ensures Get(out, "components").Some? && Get(out, "components").value.Obj?
    ensures var m, done := IdsOf(Keys(fields)), Get(out, "components").value.fields;
      && SameComponents(m, fields, done) && NoRepeats(Keys(done))
      && (Rename(a) == Rename(b) <==> a == b)
      && (Links(done, "downstream", Rename(a), Rename(b)) <==>
            Links(fields, "downstream", a, b) || StrayLink(m, fields, "downstream", a, b))
      && (Links(done, "upstream", Rename(a), Rename(b)) <==>
            Links(fields, "upstream", a, b) || StrayLink(m, fields, "upstream", a, b))
      && (HasParent(done, Rename(a), Rename(b)) <==> HasParent(fields, a, b) || StrayParent(m, fields, a, b))
      && NodesRenamed(m, top, out) && EdgesRenamed(m, top, out) && PathLookedUp(m, Get(top, "path"), Get(out, "path"))
  {
    hide Get, Migrate, NoCollision, Rebuild, SameComponents, NoRepeats, Rename, Links, StrayLink, HasParent, StrayParent,
      NodesRenamed, EdgesRenamed, PathLookedUp, Covers, Final, Injective;
    var m := IdsOf(Keys(fields));
    MigratedComponents(top, fields, out);
    var done := Rebuild(m, fields, []).value;
    MapFacts(fields);
    ComponentsSame(fields, done);
    assert forall i :: 0 <= i < |fields| ==> Keys(fields)[i] == fields[i].key && fields[i].key in m;
    LinksRenamed(m, fields, done, "downstream", a, b);
    LinksRenamed(m, fields, done, "upstream", a, b);
    ParentsRenamed(m, fields, done, a, b);
    SameId(m, a, b);
    DocumentNodes(top, fields, out);
    DocumentEdges(top, fields, out);
    PathRenamed(top, fields, out);
  }

  lemma SameId(m: IdMap, a: string, b: string)
    requires Final(m) && Injective(m) && a in m && b in m
    ensures Rename(a) == Rename(b) <==> a == b
  {
    hide Rename;
    assert m[a] == Rename(a) && m[b] == Rename(b);
  }
}
