/** Components of an agent canvas and what one post-processed component adds to the path. */
module CanvasGraph {
  import opened Options

  type Id = string

  datatype Kind = Begin | UserFillUp | Message | Iteration | Loop | IterationItem | LoopItem
                | Categorize | Switch | ExitLoop | Other

  datatype Handler = Handler(goto: seq<Id>, defaultValue: bool)

  /** `inputs` are the components its input elements refer to; `start` the first component
      inside a container. */
  datatype Component = Component(kind: Kind, inputs: seq<Id>, downstream: seq<Id>, parent: Option<Id>,
                                 start: Id, handler: Option<Handler>)

  /** What one execution leaves behind: its error ("" for none), whether its content still
      streams, the branch it chose, and whether its container is at an end. */
  datatype Outcome = Outcome(error: string, streaming: bool, next: seq<Id>, ended: bool)

  type Graph = Id -> Component

  predicate Container(k: Kind) {
    k.Iteration? || k.Loop?
  }

  predicate Item(k: Kind) {
    k.IterationItem? || k.LoopItem?
  }

  /** What the run takes for granted about a canvas: items sit in containers, every exit of a
      loop sits somewhere, and "begin" begins. */
  ghost predicate WellFormed(g: Graph) {
    && g("begin").kind == Begin
    && forall id: Id {:trigger g(id)} ::
         && (Item(g(id).kind) ==> g(id).parent.Some? && Container(g(g(id).parent.value).kind))
         && (g(id).kind.ExitLoop? ==> g(id).parent.Some?)
  }

  // ------------------------------------------------- dependencies

  predicate Exempt(k: Kind) {
    k.Begin? || k.UserFillUp?
  }

  /** Every component it reads from is already on the path. */
  predicate InputsOn(c: Component, earlier: seq<Id>) {
    forall k :: 0 <= k < |c.inputs| ==> c.inputs[k] in earlier
  }

  predicate Runnable(g: Graph, id: Id, earlier: seq<Id>, unchecked: bool) {
    Exempt(g(id).kind) || unchecked || InputsOn(g(id), earlier)
  }

  /** The path once the pending entries are admitted one by one or dropped. */
  function Admit(g: Graph, path: seq<Id>, todo: seq<Id>, unchecked: bool): (r: seq<Id>)
    ensures path <= r && |r| <= |path| + |todo|
    decreases |todo|
  {
    if todo == [] then path
    else if Runnable(g, todo[0], path, unchecked) then Admit(g, path + [todo[0]], todo[1..], unchecked)
    else Admit(g, path, todo[1..], unchecked)
  }

  ghost predicate AllReady(g: Graph, path: seq<Id>, from: nat, to: nat, unchecked: bool)
    requires to <= |path|
  {
    forall i :: from <= i < to ==> Runnable(g, path[i], path[..i], unchecked)
  }

  /** Everything admitted had its inputs before it. */
  lemma {:induction false} AdmittedReady(g: Graph, path: seq<Id>, todo: seq<Id>, unchecked: bool, from: nat)
    requires AllReady(g, path, from, |path|, unchecked)
    ensures var r := Admit(g, path, todo, unchecked); AllReady(g, r, from, |r|, unchecked)
    decreases |todo|
  {
    if todo != [] {
      if Runnable(g, todo[0], path, unchecked) {
        var more := path + [todo[0]];
        forall i | from <= i < |more| ensures Runnable(g, more[i], more[..i], unchecked) {
          if i < |path| { assert more[..i] == path[..i]; } else { assert more[..i] == path; }
        }
        AdmittedReady(g, more, todo[1..], unchecked, from);
      } else {
        AdmittedReady(g, path, todo[1..], unchecked, from);
      }
    }
  }

  /** Nothing is dropped without a missing input: an entry whose inputs are on the path and
      which is pending is admitted. */
  lemma {:induction false} NoneDropped(g: Graph, path: seq<Id>, todo: seq<Id>, unchecked: bool)
    requires forall i :: 0 <= i < |todo| ==> Runnable(g, todo[i], path, unchecked)
    ensures Admit(g, path, todo, unchecked) == path + todo
    decreases |todo|
  {
    if todo != [] {
      var more := path + [todo[0]];
      forall i | 0 <= i < |todo| - 1 ensures Runnable(g, todo[1..][i], more, unchecked) {
        assert Runnable(g, todo[i + 1], path, unchecked);
      }
      NoneDropped(g, more, todo[1..], unchecked);
      assert more + todo[1..] == path + todo;
    }
  }

  /** Every admitted entry was pending. */
  lemma {:induction false} AdmittedPending(g: Graph, path: seq<Id>, todo: seq<Id>, unchecked: bool)
    ensures forall j :: |path| <= j < |Admit(g, path, todo, unchecked)| ==> Admit(g, path, todo, unchecked)[j] in todo
    decreases |todo|
  {
    if todo != [] {
      if Runnable(g, todo[0], path, unchecked) {
        AdmittedPending(g, path + [todo[0]], todo[1..], unchecked);
        assert Admit(g, path, todo, unchecked)[|path|] == todo[0];
      } else {
        AdmittedPending(g, path, todo[1..], unchecked);
      }
    }
  }

  /** Nothing pending disappears but for want of inputs: it is admitted, or at some point it
      was missing one. */
  lemma {:induction false} AdmittedOrMissing(g: Graph, path: seq<Id>, todo: seq<Id>, unchecked: bool, next: Id)
    requires next in todo
    ensures var r := Admit(g, path, todo, unchecked);
      next in r[|path|..] || exists m :: |path| <= m <= |r| && !Runnable(g, next, r[..m], unchecked)
    decreases |todo|
  {
    hide Runnable;
    var r := Admit(g, path, todo, unchecked);
    if Runnable(g, todo[0], path, unchecked) {
      var more := path + [todo[0]];
      if todo[0] == next {
        assert r[|path|..][0] == next;
      } else {
        AdmittedOrMissing(g, more, todo[1..], unchecked, next);
        assert r[|path|..] == [todo[0]] + r[|more|..];
      }
    } else if todo[0] == next {
      assert r[..|path|] == path;
    } else {
      AdmittedOrMissing(g, path, todo[1..], unchecked, next);
    }
  }

  /** A longer path has the inputs that a shorter one has. */
  lemma StillRunnable(g: Graph, id: Id, earlier: seq<Id>, later: seq<Id>, unchecked: bool)
    requires Runnable(g, id, earlier, unchecked) && earlier <= later
    ensures Runnable(g, id, later, unchecked)
  {
    assert forall x :: x in earlier ==> x in later;
  }

  // ------------------------------------------------- what comes next

  /** `_append_path` without its branch test. */
  function Append(path: seq<Id>, id: Id): (r: seq<Id>)
    requires path != []
    ensures path <= r
  {
    if path[|path| - 1] == id then path else path + [id]
  }

  /** `_extend_path` without its branch test. */
  function Extend(path: seq<Id>, ids: seq<Id>): (r: seq<Id>)
    requires path != []
    ensures path <= r
    decreases |ids|
  {
    if ids == [] then path else Extend(Append(path, ids[0]), ids[1..])
  }

  /** The handler's jump on an error. */
  function Goto(c: Component, o: Outcome): seq<Id> {
    if o.error != "" && c.handler.Some? then c.handler.value.goto else []
  }

  /** Where control goes after a component without a jump. */
  function Branch(g: Graph, id: Id, o: Outcome): seq<Id>
    requires Item(g(id).kind) || g(id).kind.ExitLoop? ==> g(id).parent.Some?
  {
    var c := g(id);
    if Item(c.kind) && o.ended then g(c.parent.value).downstream
    else if c.kind.Categorize? || c.kind.Switch? then o.next
    else if Container(c.kind) then [c.start]
    else if c.kind.ExitLoop? && g(c.parent.value).kind.Loop? then g(c.parent.value).downstream
    else if c.downstream == [] && c.parent.Some? then [g(c.parent.value).start]
    else c.downstream
  }

  /** The path after one component is post-processed. */
  function Advance(g: Graph, path: seq<Id>, id: Id, o: Outcome): (r: seq<Id>)
    requires path != [] && (Item(g(id).kind) || g(id).kind.ExitLoop? ==> g(id).parent.Some?)
    ensures path <= r
  {
    if Goto(g(id), o) != [] then path + Goto(g(id), o) else Extend(path, Branch(g, id, o))
  }

  /** What a component with this outcome may put on the path: its handler's jump, or else the
      chosen branch, its container's start or exit, or its downstream components. */
  ghost predicate Licenses(g: Graph, id: Id, o: Outcome, next: Id) {
    var c := g(id);
    if Goto(c, o) != [] then next in c.handler.value.goto else
    match c.kind
    case Categorize | Switch => next in o.next
    case Iteration | Loop => next == c.start
    case IterationItem | LoopItem => if o.ended then Leaves(g, c, next) else Onward(g, c, next)
    case ExitLoop => if c.parent.Some? && g(c.parent.value).kind.Loop? then Leaves(g, c, next) else Onward(g, c, next)
    case _ => Onward(g, c, next)
  }

  /** To what follows the surrounding container. */
  ghost predicate Leaves(g: Graph, c: Component, next: Id) {
    c.parent.Some? && next in g(c.parent.value).downstream
  }

  /** To what follows the component, or back to the container's start after its last one. */
  ghost predicate Onward(g: Graph, c: Component, next: Id) {
    next in c.downstream || (c.downstream == [] && c.parent.Some? && next == g(c.parent.value).start)
  }

  lemma {:induction false} ExtendAdds(path: seq<Id>, ids: seq<Id>)
    requires path != []
    ensures forall j :: |path| <= j < |Extend(path, ids)| ==> Extend(path, ids)[j] in ids
    ensures forall j :: |path| <= j < |Extend(path, ids)| ==> Extend(path, ids)[j] != Extend(path, ids)[j - 1]
    decreases |ids|
  {
    if ids != [] {
      ExtendAdds(Append(path, ids[0]), ids[1..]);
    }
  }

  /** The listed entries without those that repeat the one listed just before them; `last`
      comes before the first. */
  ghost function Squeeze(last: Id, ids: seq<Id>): seq<Id> {
    if ids == [] then [] else
    var front, x := ids[..|ids| - 1], ids[|ids| - 1];
    Squeeze(last, front) + if x == Latest(last, front) then [] else [x]
  }

  ghost function Latest(last: Id, ids: seq<Id>): Id {
    if ids == [] then last else ids[|ids| - 1]
  }

  lemma {:induction false} ExtendBack(path: seq<Id>, ids: seq<Id>, x: Id)
    requires path != []
    ensures Extend(path, ids + [x]) == Append(Extend(path, ids), x)
    decreases |ids|
  {
    var more := ids + [x];
    if ids == [] {
      assert more[1..] == [];
    } else {
      assert more[0] == ids[0] && more[1..] == ids[1..] + [x];
      ExtendBack(Append(path, ids[0]), ids[1..], x);
    }
  }

  lemma ExtendNothing(path: seq<Id>)
    requires path != []
    ensures Extend(path, []) == path
  {
  }

  /** Entries are appended in the order in which they are listed, immediate repeats left out. */
  lemma {:induction false} ExtendSqueezes(path: seq<Id>, ids: seq<Id>)
    requires path != []
    ensures Extend(path, ids) == path + Squeeze(path[|path| - 1], ids)
    ensures var r := Extend(path, ids); r[|r| - 1] == Latest(path[|path| - 1], ids)
    decreases |ids|
  {
    hide Extend;
    if ids == [] {
      ExtendNothing(path);
    } else {
      var front, x := ids[..|ids| - 1], ids[|ids| - 1];
      assert ids == front + [x];
      ExtendSqueezes(path, front);
      ExtendBack(path, front, x);
    }
  }

  /** A list without immediate repeats is appended whole. */
  lemma {:induction false} SqueezeNothing(last: Id, ids: seq<Id>)
    requires (ids != [] ==> ids[0] != last) && forall k :: 0 < k < |ids| ==> ids[k] != ids[k - 1]
    ensures Squeeze(last, ids) == ids
    decreases |ids|
  {
    if ids != [] {
      SqueezeNothing(last, ids[..|ids| - 1]);
    }
  }

  lemma {:induction false} SqueezeHolds(last: Id, ids: seq<Id>, x: Id)
    requires x in ids
    ensures x == last || x in Squeeze(last, ids)
    decreases |ids|
  {
    var front := ids[..|ids| - 1];
    if x in front {
      SqueezeHolds(last, front, x);
    }
  }

  /** Where control goes, kind by kind: to the chosen branch, to the start of a container, out of
      a container that is at its end, and otherwise on. */
  lemma BranchByKind(g: Graph, id: Id, o: Outcome)
    requires WellFormed(g)
    ensures (var c := g(id); match c.kind
      case Categorize | Switch => Branch(g, id, o) == o.next
      case Iteration | Loop => Branch(g, id, o) == [c.start]
      case IterationItem | LoopItem =>
        if o.ended then Branch(g, id, o) == g(c.parent.value).downstream else Branch(g, id, o) == Onwards(g, c)
      case ExitLoop =>
        if g(c.parent.value).kind.Loop? then Branch(g, id, o) == g(c.parent.value).downstream else Branch(g, id, o) == Onwards(g, c)
      case _ => Branch(g, id, o) == Onwards(g, c))
  {
  }

  /** The components that follow, or the start of the container after the last one in it. */
  ghost function Onwards(g: Graph, c: Component): (r: seq<Id>)
    ensures c.downstream != [] ==> r == c.downstream
    ensures c.downstream == [] ==> r == if c.parent.Some? then [g(c.parent.value).start] else []
    ensures forall next :: next in r <==> Onward(g, c, next)
  {
    if c.downstream == [] && c.parent.Some? then [g(c.parent.value).start] else c.downstream
  }

  lemma BranchLicensed(g: Graph, id: Id, o: Outcome, next: Id)
    requires WellFormed(g) && Goto(g(id), o) == []
    ensures next in Branch(g, id, o) <==> Licenses(g, id, o, next)
  {
    BranchByKind(g, id, o);
    hide Onwards, Branch;
  }

  /** What post-processing appends: the handler's jump as listed, or the branch without
      immediate repeats. */
  lemma AdvanceAppends(g: Graph, path: seq<Id>, id: Id, o: Outcome)
    requires path != [] && WellFormed(g)
    ensures Advance(g, path, id, o)
            == path + if Goto(g(id), o) != [] then Goto(g(id), o) else Squeeze(path[|path| - 1], Branch(g, id, o))
  {
    hide Branch, Goto, Squeeze;
    ExtendSqueezes(path, Branch(g, id, o));
  }

  /** Everything that a component licenses is on the path afterwards, at its end or appended. */
  lemma AdvanceReaches(g: Graph, path: seq<Id>, id: Id, o: Outcome, next: Id)
    requires path != [] && WellFormed(g) && Licenses(g, id, o, next)
    ensures next in Advance(g, path, id, o)[|path| - 1..]
  {
    AdvanceAppends(g, path, id, o);
    var r := Advance(g, path, id, o);
    var added := r[|path|..];
    assert r[|path| - 1..] == [path[|path| - 1]] + added;
    if Goto(g(id), o) != [] {
      assert next in added;
    } else {
      BranchLicensed(g, id, o, next);
      SqueezeHolds(path[|path| - 1], Branch(g, id, o), next);
    }
  }

  /** Post-processing only appends, and only licensed entries. */
  lemma AdvanceLicensed(g: Graph, path: seq<Id>, id: Id, o: Outcome)
    requires path != [] && WellFormed(g)
    ensures forall j :: |path| <= j < |Advance(g, path, id, o)| ==> Licenses(g, id, o, Advance(g, path, id, o)[j])
  {
    if Goto(g(id), o) == [] {
      ExtendAdds(path, Branch(g, id, o));
    }
  }
}
