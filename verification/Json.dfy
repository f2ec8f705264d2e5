/** Parsed JSON and the dictionary operations the migration uses. */
module Json {
  import opened Options

  datatype Json = Null | Bool(b: bool) | Num(n: int) | Str(s: string) | Arr(items: seq<Json>) | Obj(fields: seq<Field>)

  datatype Field = Field(key: string, value: Json)

  type Fields = seq<Field>

  /** A call that may raise: an unhashable key, for one. */
  datatype Result<+T> = Ok(value: T) | Raised

  predicate Hashable(v: Json) {
    !v.Arr? && !v.Obj?
  }

  /** `d.get(key)`. */
  function Get(fields: Fields, key: string): Option<Json> {
    if fields == [] then None
    else if fields[0].key == key then Some(fields[0].value)
    else Get(fields[1..], key)
  }

  /** `d[key] = v`: in place when the key is there, else at the end. */
  function Put(fields: Fields, key: string, v: Json): Fields {
    if fields == [] then [Field(key, v)]
    else if fields[0].key == key then [Field(key, v)] + fields[1..]
    else [fields[0]] + Put(fields[1..], key, v)
  }

  function Keys(fields: Fields): (ks: seq<string>)
    ensures |ks| == |fields| && forall i :: 0 <= i < |ks| ==> ks[i] == fields[i].key
  {
    seq(|fields|, i requires 0 <= i < |fields| => fields[i].key)
  }

  ghost predicate NoRepeats(ks: seq<string>) {
    forall i, j :: 0 <= i < j < |ks| ==> ks[i] != ks[j]
  }

  lemma {:induction false} GetPut(fields: Fields, key: string, v: Json, other: string)
    ensures Get(Put(fields, key, v), other) == if other == key then Some(v) else Get(fields, other)
    decreases |fields|
  {
    if fields != [] {
      GetPut(fields[1..], key, v, other);
    }
  }

  /** Storing what is there changes nothing. */
  lemma {:induction false} PutSame(fields: Fields, key: string, v: Json)
    requires Get(fields, key) == Some(v)
    ensures Put(fields, key, v) == fields
    decreases |fields|
  {
    if fields[0].key == key {
      assert fields == [fields[0]] + fields[1..];
    } else {
      PutSame(fields[1..], key, v);
    }
  }

  /** A new key goes to the end. */
  lemma {:induction false} PutNew(fields: Fields, key: string, v: Json)
    requires key !in Keys(fields)
    ensures Put(fields, key, v) == fields + [Field(key, v)]
    decreases |fields|
  {
    if fields != [] {
      assert fields[0].key == Keys(fields)[0];
      assert Keys(fields[1..]) == Keys(fields)[1..];
      PutNew(fields[1..], key, v);
    }
  }

  /** A known key stays where it is. */
  lemma {:induction false} PutOld(fields: Fields, key: string, v: Json)
    requires key in Keys(fields)
    ensures Keys(Put(fields, key, v)) == Keys(fields)
    decreases |fields|
  {
    assert Keys(fields)[0] == fields[0].key;
    if fields[0].key != key {
      assert Keys(fields[1..]) == Keys(fields)[1..];
      PutOld(fields[1..], key, v);
      assert Keys(Put(fields, key, v)) == [fields[0].key] + Keys(Put(fields[1..], key, v));
      assert Keys(fields) == [fields[0].key] + Keys(fields[1..]);
    }
  }

  lemma KeysAppend(fields: Fields, key: string, v: Json)
    ensures Keys(fields + [Field(key, v)]) == Keys(fields) + [key]
  {
  }

  // ------------------------------------------------- steps on a dictionary

  type Transform = Json -> Result<Json>

  /** If the key is there, its value is replaced by its transform. */
  datatype Step = Step(key: string, g: Transform)

  function RunStep(fields: Fields, step: Step): Result<Fields> {
    var v := Get(fields, step.key);
    if v.None? then Ok(fields) else
    var w := step.g(v.value);
    if w.Raised? then Raised else Ok(Put(fields, step.key, w.value))
  }

  function RunSteps(fields: Fields, steps: seq<Step>): Result<Fields>
    decreases |steps|
  {
    if steps == [] then Ok(fields) else
    var r := RunStep(fields, steps[0]);
    if r.Raised? then Raised else RunSteps(r.value, steps[1..])
  }

  /** Transforms a dictionary; anything else is left alone. */
  function InObj(steps: seq<Step>): Transform {
    (v: Json) => if !v.Obj? then Ok(v) else
         var r := RunSteps(v.fields, steps);
         if r.Raised? then Raised else Ok(Obj(r.value))
  }

  function MapAll(items: seq<Json>, g: Transform): Result<seq<Json>> {
    if items == [] then Ok([]) else
    var first := g(items[0]);
    var rest := MapAll(items[1..], g);
    if first.Raised? || rest.Raised? then Raised else Ok([first.value] + rest.value)
  }

  /** Transforms the members of a list; anything else is left alone. */
  function InArr(g: Transform): Transform {
    (v: Json) => if !v.Arr? then Ok(v) else
         var r := MapAll(v.items, g);
         if r.Raised? then Raised else Ok(Arr(r.value))
  }

  function Then(f: Transform, g: Transform): Transform {
    (v: Json) => var w := f(v); if w.Raised? then Raised else g(w.value)
  }

  // ------------------------------------------------- settling

  /** What g has produced, h leaves as it is. */
  ghost predicate Settles(g: Transform, h: Transform) {
    forall v: Json, w: Json :: g(v) == Ok(w) ==> h(w) == Ok(w)
  }

  ghost predicate StepsSettle(steps: seq<Step>, again: seq<Step>) {
    && |steps| == |again|
    && (forall i :: 0 <= i < |steps| ==> steps[i].key == again[i].key && Settles(steps[i].g, again[i].g))
    && (forall i, j :: 0 <= i < j < |steps| ==> steps[i].key != steps[j].key)
  }

  /** Steps do not touch other keys. */
  lemma {:induction false} OtherKeys(fields: Fields, steps: seq<Step>, key: string)
    requires RunSteps(fields, steps).Ok? && forall i :: 0 <= i < |steps| ==> steps[i].key != key
    ensures Get(RunSteps(fields, steps).value, key) == Get(fields, key)
    decreases |steps|
  {
    if steps != [] {
      var r := RunStep(fields, steps[0]);
      var v := Get(fields, steps[0].key);
      if v.Some? { GetPut(fields, steps[0].key, steps[0].g(v.value).value, key); }
      OtherKeys(r.value, steps[1..], key);
    }
  }

  lemma AgainStep(fields: Fields, done: Fields, step: Step, again: Step)
    requires step.key == again.key && Settles(step.g, again.g) && RunStep(fields, step).Ok?
    requires Get(done, step.key) == Get(RunStep(fields, step).value, step.key)
    ensures RunStep(done, again) == Ok(done)
  {
    var v := Get(fields, step.key);
    if v.Some? {
      var w := step.g(v.value).value;
      GetPut(fields, step.key, w, step.key);
      PutSame(done, step.key, w);
    }
  }

  lemma {:induction false} AgainFrom(fields: Fields, steps: seq<Step>, again: seq<Step>, done: Fields)
    requires StepsSettle(steps, again) && RunSteps(fields, steps).Ok?
    requires forall i :: 0 <= i < |steps| ==> Get(done, steps[i].key) == Get(RunSteps(fields, steps).value, steps[i].key)
    ensures RunSteps(done, again) == Ok(done)
    decreases |steps|
  {
    if steps != [] {
      var r := RunStep(fields, steps[0]);
      OtherKeys(r.value, steps[1..], steps[0].key);
      AgainStep(fields, done, steps[0], again[0]);
      forall i | 0 <= i < |steps| - 1
        ensures Get(done, steps[1..][i].key) == Get(RunSteps(r.value, steps[1..]).value, steps[1..][i].key)
      {
        assert steps[1..][i] == steps[i + 1];
      }
      AgainFrom(r.value, steps[1..], again[1..], done);
    }
  }

  /** Steps that settle one by one settle together. */
  lemma ObjSettles(steps: seq<Step>, again: seq<Step>)
    requires StepsSettle(steps, again)
    ensures Settles(InObj(steps), InObj(again))
  {
    forall v: Json, w: Json | InObj(steps)(v) == Ok(w) ensures InObj(again)(w) == Ok(w) {
      if v.Obj? {
        AgainFrom(v.fields, steps, again, w.fields);
      }
    }
  }

  lemma {:induction false} MapSettles(items: seq<Json>, g: Transform, h: Transform)
    requires Settles(g, h) && MapAll(items, g).Ok?
    ensures MapAll(MapAll(items, g).value, h) == MapAll(items, g)
    decreases |items|
  {
    if items != [] {
      MapSettles(items[1..], g, h);
      var out := MapAll(items, g).value;
      assert out[1..] == MapAll(items[1..], g).value;
    }
  }

  lemma ArrSettles(g: Transform, h: Transform)
    requires Settles(g, h)
    ensures Settles(InArr(g), InArr(h))
  {
    forall v: Json, w: Json | InArr(g)(v) == Ok(w) ensures InArr(h)(w) == Ok(w) {
      if v.Arr? {
        MapSettles(v.items, g, h);
      }
    }
  }

  /** Members one by one. */
  lemma {:induction false} MapAt(items: seq<Json>, g: Transform, i: nat)
    requires MapAll(items, g).Ok? && i < |items|
    ensures |MapAll(items, g).value| == |items| && g(items[i]) == Ok(MapAll(items, g).value[i])
    decreases |items|
  {
    if |items| > 1 {
      MapAt(items[1..], g, if i > 0 then i - 1 else 0);
    }
  }
}
