/** `Canvas.run`: batches over a growing path. */
module CanvasRun {
  import opened Options
  import opened CanvasGraph

  datatype Event =
    | WorkflowStarted
    | NodeStarted(id: Id)
    | Invoked(id: Id)
    | Message(id: Id)
    | MessageEnd(id: Id)
    | NodeFinished(id: Id)
    | UserInputs
    | WorkflowFinished

  datatype Status = Running | Suspended | Failed | Finished

  /** node_finished events of components that are not containers, as a multiset of ids. */
  ghost function FinishedOf(g: Graph, events: seq<Event>): multiset<Id> {
    if events == [] then multiset{} else
    var e := events[|events| - 1];
    FinishedOf(g, events[..|events| - 1]) + if e.NodeFinished? && !Container(g(e.id).kind) then multiset{e.id} else multiset{}
  }

  lemma FinishedMore(g: Graph, events: seq<Event>, e: Event)
    ensures FinishedOf(g, events + [e])
            == FinishedOf(g, events) + if e.NodeFinished? && !Container(g(e.id).kind) then multiset{e.id} else multiset{}
  {
    assert (events + [e])[..|events|] == events;
  }

  /** The invoked components, in order. */
  ghost function InvokedOf(events: seq<Event>): seq<Id> {
    if events == [] then [] else
    var e := events[|events| - 1];
    InvokedOf(events[..|events| - 1]) + if e.Invoked? then [e.id] else []
  }

  lemma InvokedMore(events: seq<Event>, e: Event)
    ensures InvokedOf(events + [e]) == InvokedOf(events) + if e.Invoked? then [e.id] else []
  {
    assert (events + [e])[..|events|] == events;
  }

  /** The components of a stretch of the path that are not containers. */
  ghost function Counted(g: Graph, ids: seq<Id>): multiset<Id> {
    if ids == [] then multiset{} else
    var id := ids[|ids| - 1];
    Counted(g, ids[..|ids| - 1]) + if Container(g(id).kind) then multiset{} else multiset{id}
  }

  lemma CountedMore(g: Graph, ids: seq<Id>, id: Id)
    ensures Counted(g, ids + [id]) == Counted(g, ids) + if Container(g(id).kind) then multiset{} else multiset{id}
  {
    assert (ids + [id])[..|ids|] == ids;
  }

  /** Entries that are user forms, or those that are not, in their order. */
  function Forms(g: Graph, ids: seq<Id>, want: bool): seq<Id> {
    if ids == [] then [] else
    var id := ids[|ids| - 1];
    Forms(g, ids[..|ids| - 1], want) + if g(id).kind.UserFillUp? == want then [id] else []
  }

  lemma {:induction false} FormsOnly(g: Graph, ids: seq<Id>, want: bool)
    ensures forall id :: id in Forms(g, ids, want) ==> g(id).kind.UserFillUp? == want
    decreases |ids|
  {
    if ids != [] {
      FormsOnly(g, ids[..|ids| - 1], want);
    }
  }

  lemma Regroup(a: multiset<Id>, b: multiset<Id>, x: multiset<Id>)
    ensures (a + x) + b == (a + b) + x && a + (b + x) == (a + b) + x
  {
  }

  lemma {:induction false} FormsAll(g: Graph, ids: seq<Id>)
    ensures multiset(Forms(g, ids, true)) + multiset(Forms(g, ids, false)) == multiset(ids)
    decreases |ids|
  {
    if ids != [] {
      var front, id := ids[..|ids| - 1], ids[|ids| - 1];
      FormsAll(g, front);
      var yes, no := Forms(g, front, true), Forms(g, front, false);
      Regroup(multiset(yes), multiset(no), multiset([id]));
      assert multiset(ids) == multiset(front) + multiset([id]) by { assert ids == front + [id]; }
      if g(id).kind.UserFillUp? {
        assert Forms(g, ids, true) == yes + [id] && Forms(g, ids, false) == no;
        hide Forms;
        assert multiset(yes + [id]) == multiset(yes) + multiset([id]);
      } else {
        assert Forms(g, ids, true) == yes && Forms(g, ids, false) == no + [id];
        hide Forms;
        assert multiset(no + [id]) == multiset(no) + multiset([id]);
      }
    }
  }

  /** A suspended path holds exactly the pending entries, user forms first. */
  lemma FormsFirst(g: Graph, ids: seq<Id>)
    ensures multiset(Forms(g, ids, true) + Forms(g, ids, false)) == multiset(ids)
    ensures forall id :: id in Forms(g, ids, true) ==> g(id).kind.UserFillUp?
    ensures forall id :: id in Forms(g, ids, false) ==> !g(id).kind.UserFillUp?
  {
    hide Forms;
    FormsAll(g, ids);
    FormsOnly(g, ids, true);
    FormsOnly(g, ids, false);
  }

  lemma {:induction false} FormsAppend(g: Graph, a: seq<Id>, b: seq<Id>, want: bool)
    ensures Forms(g, a + b, want) == Forms(g, a, want) + Forms(g, b, want)
    decreases |b|
  {
    if b == [] {
      assert a + b == a;
    } else {
      var front, id := b[..|b| - 1], b[|b| - 1];
      assert (a + b)[..|a + b| - 1] == a + front && (a + b)[|a + b| - 1] == id;
      FormsAppend(g, a, front, want);
    }
  }

  lemma OneForm(g: Graph, id: Id, want: bool)
    ensures Forms(g, [id], want) == if g(id).kind.UserFillUp? == want then [id] else []
  {
    assert Forms(g, [], want) == [];
    assert [id][..|[id]| - 1] == [];
  }

  lemma {:induction false} FormsOfForms(g: Graph, ids: seq<Id>)
    ensures Forms(g, Forms(g, ids, true), true) == Forms(g, ids, true)
    ensures Forms(g, Forms(g, ids, false), true) == []
    decreases |ids|
  {
    if ids != [] {
      var front, id := ids[..|ids| - 1], ids[|ids| - 1];
      FormsOfForms(g, front);
      var want := g(id).kind.UserFillUp?;
      assert Forms(g, ids, want) == Forms(g, front, want) + [id] && Forms(g, ids, !want) == Forms(g, front, !want);
      FormsAppend(g, Forms(g, front, want), [id], true);
      OneForm(g, id, true);
    }
  }

  /** The forms of a suspended path are the pending forms. */
  lemma FormsKept(g: Graph, ids: seq<Id>)
    ensures Forms(g, Forms(g, ids, true) + Forms(g, ids, false), true) == Forms(g, ids, true)
  {
    FormsOfForms(g, ids);
    FormsAppend(g, Forms(g, ids, true), Forms(g, ids, false), true);
  }

  /** `"Task has been canceled" in error`. */
  predicate Canceled(error: string) {
    exists k :: 0 <= k <= |error| && CANCELED <= error[k..]
  }

  const CANCELED := "Task has been canceled"

  /** The error that no handler takes. */
  predicate Fatal(c: Component, o: Outcome) {
    o.error != "" && !(c.handler.Some? && (c.handler.value.goto != [] || c.handler.value.defaultValue))
  }

  /** Every error is handled in exactly one way: a jump, a default answer, or not at all. */
  lemma ErrorCases(c: Component, o: Outcome)
    ensures o.error == "" ==> Goto(c, o) == [] && !Answered(c, o) && !Fatal(c, o)
    ensures o.error != "" && c.handler == None ==> Fatal(c, o)
    ensures o.error != "" && c.handler.Some? && c.handler.value.goto != [] ==>
      Goto(c, o) == c.handler.value.goto && !Answered(c, o) && !Fatal(c, o)
    ensures o.error != "" && c.handler.Some? && c.handler.value.goto == [] ==>
      Goto(c, o) == [] && (Answered(c, o) <==> c.handler.value.defaultValue) && (Fatal(c, o) <==> !c.handler.value.defaultValue)
  {
  }

  /** An error is a cancellation exactly when it holds the fixed text, wherever. */
  lemma CanceledAnywhere(before: string, after: string)
    ensures Canceled(before + "Task has been canceled" + after)
    ensures !Canceled("") && !Canceled("canceled")
  {
    var error := before + "Task has been canceled" + after;
    assert error[|before|..] == CANCELED + after;
  }

  lemma {:induction false} CanceledHolds(error: string) returns (before: string, after: string)
    requires Canceled(error)
    ensures error == before + "Task has been canceled" + after
  {
    var k :| 0 <= k <= |error| && CANCELED <= error[k..];
    before, after := error[..k], error[k + |CANCELED|..];
  }

  /** Task invocation, or else `node_started`, for every listed component in order. */
  function Each(ids: seq<Id>, invoked: bool): (r: seq<Event>)
    ensures |r| == |ids| && forall k :: 0 <= k < |r| ==> r[k] == if invoked then Invoked(ids[k]) else NodeStarted(ids[k])
  {
    seq(|ids|, k requires 0 <= k < |ids| => if invoked then Invoked(ids[k]) else NodeStarted(ids[k]))
  }

  lemma {:induction false} EachUncounted(g: Graph, events: seq<Event>, ids: seq<Id>, invoked: bool)
    ensures FinishedOf(g, events + Each(ids, invoked)) == FinishedOf(g, events)
    decreases |ids|
  {
    if ids == [] {
      assert events + Each(ids, invoked) == events;
    } else {
      hide FinishedOf, Each;
      var front := ids[..|ids| - 1];
      EachUncounted(g, events, front, invoked);
      var e := EachLast(ids, invoked);
      assert events + Each(ids, invoked) == events + Each(front, invoked) + [e];
      FinishedMore(g, events + Each(front, invoked), e);
    }
  }

  lemma LastOf(a: seq<Id>, ids: seq<Id>)
    requires ids != []
    ensures a + ids[..|ids| - 1] + [ids[|ids| - 1]] == a + ids
  {
  }

  lemma {:induction false} EachInvoked(events: seq<Event>, ids: seq<Id>, invoked: bool)
    ensures InvokedOf(events + Each(ids, invoked)) == InvokedOf(events) + if invoked then ids else []
    decreases |ids|
  {
    if ids == [] {
      assert events + Each(ids, invoked) == events;
    } else {
      hide InvokedOf, Each;
      var front, id := ids[..|ids| - 1], ids[|ids| - 1];
      EachInvoked(events, front, invoked);
      var e := EachLast(ids, invoked);
      assert events + Each(ids, invoked) == events + Each(front, invoked) + [e];
      InvokedMore(events + Each(front, invoked), e);
      if invoked {
        LastOf(InvokedOf(events), ids);
      }
    }
  }

  // ------------------------------------------------- what post-processing reports

  /** node_finished for every listed component, in order. */
  function Reported(ids: seq<Id>): (r: seq<Event>)
    ensures |r| == |ids| && forall k :: 0 <= k < |r| ==> r[k] == NodeFinished(ids[k])
  {
    seq(|ids|, k requires 0 <= k < |ids| => NodeFinished(ids[k]))
  }

  /** How many pending streams are used up before the first that is not, when k are reported. */
  function Drains(drained: (nat, nat, Id) -> bool, i: nat, k: nat, pending: seq<Id>): (n: nat)
    ensures n <= |pending| && (forall j :: 0 <= j < n ==> drained(i, k + j, pending[j]))
    ensures n < |pending| ==> !drained(i, k + n, pending[n])
    decreases |pending|
  {
    if pending == [] || !drained(i, k, pending[0]) then 0 else
    var n := Drains(drained, i, k + 1, pending[1..]);
    assert forall j :: 1 <= j < n + 1 ==> pending[j] == pending[1..][j - 1] && drained(i, k + 1 + (j - 1), pending[1..][j - 1]);
    n + 1
  }

  lemma DrainsNext(drained: (nat, nat, Id) -> bool, i: nat, k: nat, pending: seq<Id>)
    requires k < |pending| && drained(i, k, pending[k])
    ensures Drains(drained, i, k, pending[k..]) == 1 + Drains(drained, i, k + 1, pending[k + 1..])
    ensures Reported(pending[..k + 1]) == Reported(pending[..k]) + [NodeFinished(pending[k])]
  {
    assert pending[k..][0] == pending[k] && pending[k..][1..] == pending[k + 1..];
  }

  lemma DrainsStop(drained: (nat, nat, Id) -> bool, i: nat, k: nat, pending: seq<Id>)
    requires k <= |pending| && (k < |pending| ==> !drained(i, k, pending[k]))
    ensures Drains(drained, i, k, pending[k..]) == 0
  {
  }

  /** A default answer of an error handler. */
  predicate Answered(c: Component, o: Outcome) {
    o.error != "" && c.handler.Some? && c.handler.value.goto == [] && c.handler.value.defaultValue
  }

  /** The component is still streaming after its post-processing. */
  predicate Streams(c: Component, o: Outcome, error: string) {
    !Container(c.kind) && o.streaming && !c.kind.Message? && error == ""
  }

  /** Everything that post-processing a component reports, with n streams used up by its
      message and `error` as it is after its error was handled. */
  function StepEvents(c: Component, o: Outcome, id: Id, error: string, pending: seq<Id>, n: nat): seq<Event>
    requires n <= |pending| && (Item(c.kind) ==> c.parent.Some?)
  {
    (if c.kind.Message? then [Event.Message(id), MessageEnd(id)] + Reported(pending[..n]) else [])
    + (if Answered(c, o) then [Event.Message(id), MessageEnd(id)] else [])
    + (if Container(c.kind) || Streams(c, o, error) then [] else [NodeFinished(id)])
    + (if Item(c.kind) && o.ended then [NodeFinished(c.parent.value)] else [])
  }

  /** The pending streams afterwards, in order. */
  function StepPending(c: Component, o: Outcome, id: Id, error: string, pending: seq<Id>, n: nat): seq<Id>
    requires n <= |pending|
  {
    (if c.kind.Message? then pending[n..] else pending) + (if Streams(c, o, error) then [id] else [])
  }

  /** The reports of one component, kind by kind: a message with its end and the streams it used
      up comes before the component itself, a container is never reported here, the end of an
      item is reported before that of its container, and a stream is not reported but pending. */
  lemma EventsByKind(c: Component, o: Outcome, id: Id, error: string, pending: seq<Id>, n: nat)
    requires n <= |pending| && (Item(c.kind) ==> c.parent.Some?) && !Answered(c, o)
    ensures c.kind.Message? ==>
      && StepEvents(c, o, id, error, pending, n) == [Event.Message(id), MessageEnd(id)] + Reported(pending[..n]) + [NodeFinished(id)]
      && StepPending(c, o, id, error, pending, n) == pending[n..]
    ensures c.kind.Iteration? || c.kind.Loop? ==>
      StepEvents(c, o, id, error, pending, n) == [] && StepPending(c, o, id, error, pending, n) == pending
    ensures c.kind.IterationItem? || c.kind.LoopItem? ==> (o.ended && (!o.streaming || error != "") ==>
      StepEvents(c, o, id, error, pending, n) == [NodeFinished(id), NodeFinished(c.parent.value)])
    ensures !c.kind.Message? && !c.kind.Iteration? && !c.kind.Loop? && !o.ended ==>
      if o.streaming && error == "" then
        StepEvents(c, o, id, error, pending, n) == [] && StepPending(c, o, id, error, pending, n) == pending + [id]
      else
        StepEvents(c, o, id, error, pending, n) == [NodeFinished(id)] && StepPending(c, o, id, error, pending, n) == pending
  {
    hide Reported, Drains;
    assert forall s: seq<Event> :: s + [] == s && [] + s == s;
    assert forall s: seq<Id> :: s + [] == s;
  }

  lemma FourParts<T>(e: seq<T>, a: seq<T>, b: seq<T>, c: seq<T>, d: seq<T>)
    ensures e + a + b + c + d == e + (a + b + c + d)
  {
  }

  lemma EachLast(ids: seq<Id>, invoked: bool) returns (e: Event)
    requires ids != []
    ensures Each(ids, invoked) == Each(ids[..|ids| - 1], invoked) + [e]
    ensures e == if invoked then Invoked(ids[|ids| - 1]) else NodeStarted(ids[|ids| - 1])
  {
    e := Each(ids, invoked)[|ids| - 1];
  }

  // ------------------------------------------------- what a whole batch does to a path

  type Outcomes = (nat, Id) -> Outcome

  ghost predicate LicensedAt(g: Graph, outcome: Outcomes, path: seq<Id>, first: nat, done: nat, j: nat)
    requires j < |path|
  {
    exists i :: first <= i < j && i < done && Licenses(g, path[i], outcome(i, path[i]), path[j])
  }

  /** Every entry after the first of this run was licensed by an earlier processed one. */
  ghost predicate Licensed(g: Graph, outcome: Outcomes, path: seq<Id>, first: nat, done: nat) {
    forall j: nat :: first < j < |path| ==> LicensedAt(g, outcome, path, first, done, j)
  }

  /** Entry i was followed by `next`: it stands at or after i, or it missed an input at some
      point after i that is not past `seen`. */
  ghost predicate Follows(g: Graph, p: seq<Id>, i: nat, next: Id, seen: nat, unchecked: bool)
    requires i <= |p| && seen <= |p|
  {
    next in p[i..] || exists m :: i < m <= seen && Missed(g, p, next, m, unchecked)
  }

  /** The component cannot run after the first m entries. */
  ghost predicate Missed(g: Graph, p: seq<Id>, next: Id, m: nat, unchecked: bool)
    requires m <= |p|
  {
    !Runnable(g, next, p[..m], unchecked)
  }

  /** Every component that a processed entry licenses has followed it. */
  ghost predicate Followed(g: Graph, outcome: Outcomes, p: seq<Id>, first: nat, done: nat, seen: nat, unchecked: bool) {
    && done <= |p| && seen <= |p|
    && forall i: nat, next: Id {:trigger Follows(g, p, i, next, seen, unchecked)} ::
         first <= i < done && Licenses(g, p[i], outcome(i, p[i]), next) ==> Follows(g, p, i, next, seen, unchecked)
  }

  lemma FollowedAt(g: Graph, outcome: Outcomes, p: seq<Id>, first: nat, done: nat, seen: nat, unchecked: bool, i: nat, next: Id)
    requires Followed(g, outcome, p, first, done, seen, unchecked) && first <= i < done
    requires Licenses(g, p[i], outcome(i, p[i]), next)
    ensures Follows(g, p, i, next, seen, unchecked)
  {
    hide Licenses, Follows;
  }

  /** What has followed has also followed on any longer path. */
  lemma StillFollows(g: Graph, p: seq<Id>, q: seq<Id>, i: nat, next: Id, seen: nat, seen': nat, unchecked: bool)
    requires i <= |p| && seen <= |p| && p <= q && seen <= seen' <= |q| && Follows(g, p, i, next, seen, unchecked)
    ensures Follows(g, q, i, next, seen', unchecked)
  {
    hide Runnable;
    if next in p[i..] {
      var k :| 0 <= k < |p| - i && p[i..][k] == next;
      assert q[i..][k] == next;
    } else {
      var m :| i < m <= seen && Missed(g, p, next, m, unchecked);
      assert p[..m] == q[..m];
      assert Missed(g, q, next, m, unchecked);
    }
  }

  lemma FollowedMore(g: Graph, outcome: Outcomes, p: seq<Id>, q: seq<Id>, first: nat, done: nat, seen: nat, unchecked: bool)
    requires Followed(g, outcome, p, first, done, seen, unchecked) && p <= q
    ensures Followed(g, outcome, q, first, done, seen, unchecked)
  {
    hide Licenses, Follows;
    forall i: nat, next: Id | first <= i < done && Licenses(g, q[i], outcome(i, q[i]), next)
      ensures Follows(g, q, i, next, seen, unchecked)
    {
      assert p[i] == q[i];
      StillFollows(g, p, q, i, next, seen, seen, unchecked);
    }
  }

  /** Dropping pending entries: whoever loses a follower loses it for want of inputs. */
  lemma AdmitFollowed(g: Graph, outcome: Outcomes, p: seq<Id>, first: nat, idx: nat, unchecked: bool)
    requires Followed(g, outcome, p, first, idx, idx, unchecked)
    ensures var q := Admit(g, p[..idx], p[idx..], unchecked); Followed(g, outcome, q, first, idx, |q|, unchecked)
  {
    var q := Admit(g, p[..idx], p[idx..], unchecked);
    hide Licenses, Follows, Admit;
    forall i: nat, next: Id | first <= i < idx && Licenses(g, q[i], outcome(i, q[i]), next)
      ensures Follows(g, q, i, next, |q|, unchecked)
    {
      assert q[i] == p[..idx][i] == p[i];
      FollowedAt(g, outcome, p, first, idx, idx, unchecked, i, next);
      AdmitFollows(g, p, idx, i, next, unchecked);
    }
  }

  lemma AdmitFollows(g: Graph, p: seq<Id>, idx: nat, i: nat, next: Id, unchecked: bool)
    requires i < idx <= |p| && Follows(g, p, i, next, idx, unchecked)
    ensures var q := Admit(g, p[..idx], p[idx..], unchecked); Follows(g, q, i, next, |q|, unchecked)
  {
    hide Runnable, Admit;
    var q := Admit(g, p[..idx], p[idx..], unchecked);
    assert p[i..] == p[i..idx] + p[idx..] && q[i..] == q[i..idx] + q[idx..] && q[i..idx] == p[i..idx];
    if next in p[idx..] {
      AdmittedOrMissing(g, p[..idx], p[idx..], unchecked, next);
      if next !in q[idx..] {
        var m :| idx <= m <= |q| && !Runnable(g, next, q[..m], unchecked);
        assert Missed(g, q, next, m, unchecked);
      }
    } else if next !in p[i..idx] {
      var m :| i < m <= idx && Missed(g, p, next, m, unchecked);
      assert p[..m] == q[..m];
      assert Missed(g, q, next, m, unchecked);
    }
  }

  /** The path once the positions from `lo` to `hi` of p are post-processed. */
  ghost function AdvanceAll(g: Graph, outcome: Outcomes, p: seq<Id>, lo: nat, hi: nat): (r: seq<Id>)
    requires WellFormed(g) && p != [] && lo <= hi <= |p|
    ensures p <= r
    decreases hi
  {
    if hi == lo then p else
    Advance(g, AdvanceAll(g, outcome, p, lo, hi - 1), p[hi - 1], outcome(hi - 1, p[hi - 1]))
  }

  lemma AdvanceNone(g: Graph, outcome: Outcomes, p: seq<Id>, lo: nat)
    requires WellFormed(g) && p != [] && lo <= |p|
    ensures AdvanceAll(g, outcome, p, lo, lo) == p && Counted(g, p[lo..lo]) == multiset{}
  {
  }

  lemma AdvanceNext(g: Graph, outcome: Outcomes, p: seq<Id>, lo: nat, i: nat)
    requires WellFormed(g) && p != [] && lo <= i < |p|
    ensures Item(g(p[i]).kind) || g(p[i]).kind.ExitLoop? ==> g(p[i]).parent.Some?
    ensures AdvanceAll(g, outcome, p, lo, i + 1) == Advance(g, AdvanceAll(g, outcome, p, lo, i), p[i], outcome(i, p[i]))
  {
  }

  /** Whatever a batch appends is licensed by one of its components. */
  lemma {:induction false} AdvanceAllLicensed(g: Graph, outcome: Outcomes, p: seq<Id>, first: nat, lo: nat, hi: nat, j: nat)
    requires WellFormed(g) && p != [] && first <= lo <= hi <= |p|
    requires |p| <= j < |AdvanceAll(g, outcome, p, lo, hi)|
    ensures LicensedAt(g, outcome, AdvanceAll(g, outcome, p, lo, hi), first, hi, j)
    decreases hi
  {
    hide Licenses, WellFormed, Advance, Branch;
    if hi > lo {
      AdvanceNext(g, outcome, p, lo, hi - 1);
      var q, r := AdvanceAll(g, outcome, p, lo, hi - 1), AdvanceAll(g, outcome, p, lo, hi);
      if j < |q| {
        AdvanceAllLicensed(g, outcome, p, first, lo, hi - 1, j);
        var i :| first <= i < j && i < hi - 1 && Licenses(g, q[i], outcome(i, q[i]), q[j]);
        assert r[i] == q[i] && r[j] == q[j];
      } else {
        AdvanceLicensed(g, q, p[hi - 1], outcome(hi - 1, p[hi - 1]));
        assert r[hi - 1] == q[hi - 1] == p[hi - 1];
        assert Licenses(g, r[hi - 1], outcome(hi - 1, r[hi - 1]), r[j]);
      }
    }
  }

  /** Post-processing a stretch puts everything that it licenses on the path. */
  lemma {:induction false} AdvanceAllReaches(g: Graph, outcome: Outcomes, p: seq<Id>, lo: nat, hi: nat, i: nat, next: Id)
    requires WellFormed(g) && p != [] && lo <= i < hi <= |p| && Licenses(g, p[i], outcome(i, p[i]), next)
    ensures next in AdvanceAll(g, outcome, p, lo, hi)[|p| - 1..]
    decreases hi
  {
    hide WellFormed, Licenses, Advance;
    var q, r := AdvanceAll(g, outcome, p, lo, hi - 1), AdvanceAll(g, outcome, p, lo, hi);
    AdvanceNext(g, outcome, p, lo, hi - 1);
    assert r[|p| - 1..] == r[|p| - 1..|q| - 1] + r[|q| - 1..];
    if i == hi - 1 {
      AdvanceReaches(g, q, p[i], outcome(i, p[i]), next);
    } else {
      AdvanceAllReaches(g, outcome, p, lo, hi - 1, i, next);
      assert r[|p| - 1..] == q[|p| - 1..] + r[|q|..];
    }
  }

  /** Whatever the entries from lo to hi license stands on the path, not before the last of them. */
  ghost predicate Reaches(g: Graph, outcome: Outcomes, r: seq<Id>, lo: nat, hi: nat) {
    && 0 < hi <= |r|
    && forall i: nat, next: Id {:trigger Licenses(g, r[i], outcome(i, r[i]), next)} ::
         lo <= i < hi && Licenses(g, r[i], outcome(i, r[i]), next) ==> next in r[hi - 1..]
  }

  lemma BatchReaches(g: Graph, outcome: Outcomes, q: seq<Id>, idx: nat)
    requires WellFormed(g) && q != [] && idx <= |q|
    ensures Reaches(g, outcome, AdvanceAll(g, outcome, q, idx, |q|), idx, |q|)
  {
    hide Licenses, AdvanceAll, WellFormed;
    var r := AdvanceAll(g, outcome, q, idx, |q|);
    forall i: nat, next: Id {:trigger Licenses(g, r[i], outcome(i, r[i]), next)} | idx <= i < |q| && Licenses(g, r[i], outcome(i, r[i]), next)
      ensures next in r[|q| - 1..]
    {
      assert r[i] == q[i];
      AdvanceAllReaches(g, outcome, q, idx, |q|, i, next);
    }
  }

  lemma BatchFollowed(g: Graph, outcome: Outcomes, q: seq<Id>, first: nat, idx: nat, unchecked: bool)
    requires WellFormed(g) && q != [] && idx <= |q| && Followed(g, outcome, q, first, idx, |q|, unchecked)
    ensures Followed(g, outcome, AdvanceAll(g, outcome, q, idx, |q|), first, |q|, |q|, unchecked)
  {
    hide Licenses, Follows, AdvanceAll, WellFormed;
    var r := AdvanceAll(g, outcome, q, idx, |q|);
    forall i: nat, next: Id | first <= i < |q| && Licenses(g, r[i], outcome(i, r[i]), next)
      ensures Follows(g, r, i, next, |q|, unchecked)
    {
      assert r[i] == q[i];
      if i < idx {
        FollowedAt(g, outcome, q, first, idx, |q|, unchecked, i, next);
        StillFollows(g, q, r, i, next, |q|, |q|, unchecked);
      } else {
        AdvanceAllReaches(g, outcome, q, idx, |q|, i, next);
        InLaterPart(g, r, i, |q| - 1, next, |q|, unchecked);
      }
    }
  }

  lemma InLaterPart(g: Graph, r: seq<Id>, i: nat, at: nat, next: Id, seen: nat, unchecked: bool)
    requires i <= at <= |r| && seen <= |r| && next in r[at..]
    ensures Follows(g, r, i, next, seen, unchecked)
  {
    assert r[i..] == r[i..at] + r[at..];
  }

  /** Dropping pending entries keeps every entry licensed. */
  lemma AdmitLicensed(g: Graph, outcome: Outcomes, p: seq<Id>, first: nat, idx: nat, unchecked: bool)
    requires first <= idx <= |p| && Licensed(g, outcome, p, first, idx) && (idx == first ==> |p| <= first + 1)
    ensures var q := Admit(g, p[..idx], p[idx..], unchecked);
      Licensed(g, outcome, q, first, idx) && p[..idx] <= q && |q| <= |p|
  {
    var q := Admit(g, p[..idx], p[idx..], unchecked);
    AdmittedPending(g, p[..idx], p[idx..], unchecked);
    forall j: nat | first < j < |q| ensures LicensedAt(g, outcome, q, first, idx, j) {
      var j0: nat := j;
      if j >= idx {
        assert q[j] in p[idx..];
        var k :| 0 <= k < |p| - idx && p[idx..][k] == q[j];
        j0 := idx + k;
      }
      assert LicensedAt(g, outcome, p, first, idx, j0);
      var i :| first <= i < j0 && i < idx && Licenses(g, p[i], outcome(i, p[i]), p[j0]);
      assert q[i] == p[i] && q[j] == p[j0];
    }
  }

  /** What holds of a run's path between two batches: everything processed had its inputs
      before it, everything appended is licensed by something processed, and everything that
      something processed licenses has followed it. */
  ghost predicate Steady(g: Graph, outcome: Outcomes, p: seq<Id>, first: nat, idx: nat, unchecked: bool) {
    && WellFormed(g) && p != [] && first <= idx <= |p| && (idx == first ==> |p| <= first + 1)
    && Licensed(g, outcome, p, first, idx) && AllReady(g, p, first, idx, unchecked)
    && Followed(g, outcome, p, first, idx, idx, unchecked)
  }

  /** One batch keeps a path steady and its processed part as it is. */
  lemma BatchKeeps(g: Graph, outcome: Outcomes, p: seq<Id>, first: nat, idx: nat, unchecked: bool)
    requires Steady(g, outcome, p, first, idx, unchecked) && Admit(g, p[..idx], p[idx..], unchecked) != []
    ensures var q := Admit(g, p[..idx], p[idx..], unchecked);
      var r := AdvanceAll(g, outcome, q, idx, |q|);
      p[..idx] <= q <= r && Followed(g, outcome, q, first, idx, |q|, unchecked) && Steady(g, outcome, r, first, |q|, unchecked)
  {
    var q := Admit(g, p[..idx], p[idx..], unchecked);
    var r := AdvanceAll(g, outcome, q, idx, |q|);
    AdmitLicensed(g, outcome, p, first, idx, unchecked);
    BatchLicensed(g, outcome, q, first, idx);
    AdmitFollowed(g, outcome, p, first, idx, unchecked);
    BatchFollowed(g, outcome, q, first, idx, unchecked);
    forall i | first <= i < idx ensures Runnable(g, p[..idx][i], p[..idx][..i], unchecked) {
      assert p[..idx][..i] == p[..i];
    }
    AdmittedReady(g, p[..idx], p[idx..], unchecked, first);
    hide Licensed, WellFormed, AdvanceAll, Admit, Runnable, Followed;
    forall i | first <= i < |q| ensures Runnable(g, r[i], r[..i], unchecked) {
      assert r[..i] == q[..i];
    }
  }

  lemma BatchLicensed(g: Graph, outcome: Outcomes, q: seq<Id>, first: nat, idx: nat)
    requires WellFormed(g) && q != [] && first <= idx <= |q| && Licensed(g, outcome, q, first, idx)
    ensures Licensed(g, outcome, AdvanceAll(g, outcome, q, idx, |q|), first, |q|)
    ensures |q| == first ==> AdvanceAll(g, outcome, q, idx, |q|) == q
  {
    var r := AdvanceAll(g, outcome, q, idx, |q|);
    forall j: nat | first < j < |r| ensures LicensedAt(g, outcome, r, first, |q|, j) {
      if j >= |q| {
        AdvanceAllLicensed(g, outcome, q, first, idx, |q|, j);
      } else {
        assert LicensedAt(g, outcome, q, first, idx, j);
        var i :| first <= i < j && i < idx && Licenses(g, q[i], outcome(i, q[i]), q[j]);
        assert r[i] == q[i] && r[j] == q[j];
      }
    }
  }

  lemma {:induction false} CountedAppend(g: Graph, a: seq<Id>, b: seq<Id>)
    ensures Counted(g, a + b) == Counted(g, a) + Counted(g, b)
    decreases |b|
  {
    if b == [] {
      assert a + b == a;
    } else {
      var front, id := b[..|b| - 1], b[|b| - 1];
      assert a + b == a + front + [id] && b == front + [id];
      CountedAppend(g, a, front);
      CountedMore(g, a + front, id);
    }
  }

  lemma AdmitNext(g: Graph, p: seq<Id>, i: nat, unchecked: bool)
    requires i < |p|
    ensures Admit(g, p[..i], p[i..], unchecked)
            == if Runnable(g, p[i], p[..i], unchecked) then Admit(g, p[..i + 1], p[i + 1..], unchecked)
               else Admit(g, p[..i], p[i + 1..], unchecked)
  {
    assert p[i..][0] == p[i] && p[i..][1..] == p[i + 1..] && p[..i] + [p[i]] == p[..i + 1];
  }

  lemma EachNext(p: seq<Id>, lo: nat, i: nat, invoked: bool)
    requires lo <= i < |p|
    ensures Each(p[lo..i + 1], invoked) == Each(p[lo..i], invoked) + [if invoked then Invoked(p[i]) else NodeStarted(p[i])]
  {
    assert p[lo..i + 1] == p[lo..i] + [p[i]];
  }

  /** The processed part of a steady path, on its own. */
  lemma CutSteady(g: Graph, outcome: Outcomes, p: seq<Id>, first: nat, f: nat, unchecked: bool)
    requires Steady(g, outcome, p, first, f, unchecked)
    ensures AllReady(g, p[..f], first, f, unchecked) && Licensed(g, outcome, p[..f], first, f)
  {
    hide Runnable, Licenses, Followed;
    var q := p[..f];
    forall i | first <= i < f ensures Runnable(g, q[i], q[..i], unchecked) {
      assert q[..i] == p[..i];
    }
    forall j: nat | first < j < f ensures LicensedAt(g, outcome, q, first, f, j) {
      assert LicensedAt(g, outcome, p, first, f, j);
      var i :| first <= i < j && i < f && Licenses(g, p[i], outcome(i, p[i]), p[j]);
      assert q[i] == p[i] && q[j] == p[j];
    }
  }

  lemma SteadyFollowed(g: Graph, outcome: Outcomes, p: seq<Id>, first: nat, f: nat, unchecked: bool)
    requires Steady(g, outcome, p, first, f, unchecked)
    ensures Followed(g, outcome, p, first, f, f, unchecked)
  {
    hide Licensed, Followed, AllReady;
  }

  /** Each of these entries is licensed by a component of the trace. */
  ghost predicate PendingLicensed(g: Graph, outcome: Outcomes, trace: seq<Id>, first: nat, ids: seq<Id>) {
    forall id :: id in ids ==> LicensedBy(g, outcome, trace, first, id)
  }

  ghost predicate LicensedBy(g: Graph, outcome: Outcomes, trace: seq<Id>, first: nat, id: Id) {
    exists i :: first <= i < |trace| && Licenses(g, trace[i], outcome(i, trace[i]), id)
  }

  lemma AppendedLicensed(g: Graph, outcome: Outcomes, p: seq<Id>, first: nat, f: nat, unchecked: bool)
    requires Steady(g, outcome, p, first, f, unchecked) && (f == first ==> |p| == f)
    ensures PendingLicensed(g, outcome, p[..f], first, p[f..])
  {
    hide Licenses, AllReady, Followed;
    forall id | id in p[f..] ensures LicensedBy(g, outcome, p[..f], first, id) {
      var k :| 0 <= k < |p| - f && p[f..][k] == id;
      assert LicensedAt(g, outcome, p, first, f, f + k);
      var i :| first <= i < f + k && i < f && Licenses(g, p[i], outcome(i, p[i]), p[f + k]);
      assert p[..f][i] == p[i];
    }
  }

  /** The same entries in another order. */
  lemma ReorderedLicensed(g: Graph, outcome: Outcomes, trace: seq<Id>, first: nat, ids: seq<Id>, other: seq<Id>)
    requires PendingLicensed(g, outcome, trace, first, ids) && multiset(other) == multiset(ids)
    ensures PendingLicensed(g, outcome, trace, first, other)
  {
    hide LicensedBy;
    forall id | id in other ensures id in ids { assert id in multiset(other); }
  }

  /** The appended entries in another order, after the processed ones. */
  lemma ReorderedFollowed(g: Graph, outcome: Outcomes, p: seq<Id>, first: nat, f: nat, unchecked: bool, other: seq<Id>)
    requires Followed(g, outcome, p, first, f, f, unchecked) && multiset(other) == multiset(p[f..])
    ensures Followed(g, outcome, p[..f] + other, first, f, f, unchecked)
  {
    hide Licenses, Follows;
    var q := p[..f] + other;
    forall i: nat, next: Id | first <= i < f && Licenses(g, q[i], outcome(i, q[i]), next)
      ensures Follows(g, q, i, next, f, unchecked)
    {
      assert q[i] == p[i];
      FollowedAt(g, outcome, p, first, f, f, unchecked, i, next);
      ReorderedFollows(g, p, f, i, next, unchecked, other);
    }
  }

  lemma ReorderedFollows(g: Graph, p: seq<Id>, f: nat, i: nat, next: Id, unchecked: bool, other: seq<Id>)
    requires i < f <= |p| && Follows(g, p, i, next, f, unchecked) && multiset(other) == multiset(p[f..])
    ensures Follows(g, p[..f] + other, i, next, f, unchecked)
  {
    hide Runnable;
    var q := p[..f] + other;
    if next in p[i..] {
      assert p[i..] == p[i..f] + p[f..] && q[i..] == p[i..f] + other;
      assert next in p[f..] ==> next in multiset(p[f..]);
      assert next in multiset(other) ==> next in other;
    } else {
      var m :| i < m <= f && Missed(g, p, next, m, unchecked);
      assert q[..m] == p[..m];
      assert Missed(g, q, next, m, unchecked);
    }
  }

  lemma TailParts(g: Graph, p: seq<Id>, q: seq<Id>, first: nat)
    requires first <= |p| && p <= q
    ensures q[first..] == p[first..] + q[|p|..]
    ensures Counted(g, q[first..]) == Counted(g, p[first..]) + Counted(g, q[|p|..])
  {
    assert q == p + q[|p|..];
    assert q[first..] == p[first..] + q[|p|..];
    CountedAppend(g, p[first..], q[|p|..]);
  }

  /** The path that a run starts on. */
  function StartPath(formId: Id -> bool, path: seq<Id>): seq<Id> {
    if path == [] || !formId(path[|path| - 1]) then path + ["begin"] else path
  }

  class Canvas {
    /** The canvas and what its components answer: `outcome` at a position of the path,
        `drained` whether a pending stream is used up when the message at a position has
        ended and a number of streams are already reported, `formId` whether an id names a
        user form. */
    const graph: Graph
    const outcome: Outcomes
    const drained: (nat, nat, Id) -> bool
    const formId: Id -> bool

    var path: seq<Id>
    var error: string
    var events: seq<Event>
    /** Locals of `run`, kept here so that its parts can be methods of their own. */
    var idx: nat
    var partials: seq<Id>
    /** Where this run started on the path. */
    ghost var first: nat

    constructor (graph: Graph, outcome: Outcomes, drained: (nat, nat, Id) -> bool,
                 formId: Id -> bool, path: seq<Id>)
      ensures this.graph == graph && this.outcome == outcome && this.drained == drained && this.formId == formId
      ensures this.path == path && events == [] && partials == [] && error == ""
    {
      this.graph, this.outcome, this.drained, this.formId := graph, outcome, drained, formId;
      this.path, error, events, idx, partials, first := path, "", [], 0, [], 0;
    }

    /** Dependencies are not checked on a path that begins at a user form. */
    predicate Unchecked()
      reads `path
    {
      path != [] && formId(path[0])
    }

    /** Reported components and pending streams together. */
    ghost function Seen(): multiset<Id>
      reads `events, `partials
    {
      FinishedOf(graph, events) + multiset(partials)
    }

    /** The components invoked in this run are those of the trace from `first` on, and then
        some more; reported components and pending streams together are those of the trace. */
    ghost predicate Told(trace: seq<Id>, more: seq<Id>)
      reads `first, `events, `partials
    {
      first <= |trace| && InvokedOf(events) == trace[first..] + more && Seen() == Counted(graph, trace[first..])
    }

    /** The processed components are told of, and no others. */
    ghost predicate Accounted(done: nat)
      reads `path, `first, `events, `partials
    {
      first <= done <= |path| && Told(path[..done], [])
    }

    /** What holds between two batches. */
    ghost predicate Between()
      reads `path, `first, `events, `partials, `idx
    {
      && Steady(graph, outcome, path, first, idx, Unchecked()) && Accounted(idx) && StreamsPlain()
      && (idx == 0 ==> Unchecked() || Exempt(graph(path[0]).kind))
    }

    /** The head of `run`: "begin" is appended unless the path ends at a user form. */
    method Start()
      requires WellFormed(graph)
      modifies this
      ensures path == StartPath(formId, old(path))
      ensures old(path) != [] && formId(old(path)[|old(path)| - 1]) ==> path == old(path)
      ensures old(path) == [] || !formId(old(path)[|old(path)| - 1]) ==> path == old(path) + ["begin"]
      ensures first == idx == |path| - 1 && partials == [] && error == "" && events == [WorkflowStarted]
      ensures Between()
    {
      hide Between;
      if path == [] || !formId(path[|path| - 1]) {
        path := path + ["begin"];
      }
      error, idx, first, partials, events := "", |path| - 1, |path| - 1, [], [WorkflowStarted];
      StartsBetween();
    }

    lemma StartsBetween()
      requires WellFormed(graph) && path != [] && first == idx == |path| - 1 && partials == [] && events == [WorkflowStarted]
      requires idx == 0 ==> Unchecked() || path[0] == "begin"
      ensures Between()
    {
      hide Licenses;
      var none: seq<Event> := [];
      FinishedMore(graph, none, WorkflowStarted);
      InvokedMore(none, WorkflowStarted);
      assert none + [WorkflowStarted] == events;
      assert path[..idx][first..] == [];
    }

    /** `_run_batch`: pending entries with a missing input are dropped, the others invoked. */
    method RunBatch(from: nat, to: nat)
      requires from <= to == |path| && path != []
      requires from == 0 ==> Unchecked() || Exempt(graph(path[0]).kind)
      modifies `path, `events
      ensures path == Admit(graph, old(path)[..from], old(path)[from..], old(Unchecked()))
      ensures events == old(events) + Each(path[from..], true)
      ensures InvokedOf(events) == old(InvokedOf(events)) + path[from..]
      ensures path != [] && Unchecked() == old(Unchecked()) && Seen() == old(Seen())
    {
      hide FinishedOf, InvokedOf, Each, Admit, InputsOn;
      var i, t := from, to;
      ghost var was, unchecked := path, Unchecked();
      while i < t
        invariant from <= i <= t == |path| && path != [] && Unchecked() == unchecked
        invariant i == 0 ==> unchecked || Exempt(graph(path[0]).kind)
        invariant Admit(graph, path[..i], path[i..], unchecked) == Admit(graph, was[..from], was[from..], unchecked)
        invariant events == old(events) + Each(path[from..i], true)
        decreases t - i
      {
        AdmitNext(graph, path, i, unchecked);
        if Exempt(graph(path[i]).kind) {
          EachNext(path, from, i, true);
          events := events + [Invoked(path[i])];
          i := i + 1;
        } else if !InputsOn(graph(path[i]), path[..i]) && !Unchecked() {
          ghost var before := path;
          path := path[..i] + path[i + 1..];
          t := t - 1;
          assert path[..i] == before[..i] && path[i..] == before[i + 1..] && path[from..i] == before[from..i];
        } else {
          EachNext(path, from, i, true);
          events := events + [Invoked(path[i])];
          i := i + 1;
        }
      }
      assert path[from..i] == path[from..];
      SeenAfter(old(events), path[from..], true);
      EachInvoked(old(events), path[from..], true);
    }

    /** Only components that are not containers stream. */
    ghost predicate StreamsPlain()
      reads `partials
    {
      forall id :: id in partials ==> !Container(graph(id).kind)
    }

    method Report(e: Event)
      modifies `events
      ensures events == old(events) + [e]
      ensures FinishedOf(graph, events)
              == old(FinishedOf(graph, events)) + if e.NodeFinished? && !Container(graph(e.id).kind) then multiset{e.id} else multiset{}
      ensures !e.NodeFinished? ==> Seen() == old(Seen())
      ensures !e.Invoked? ==> InvokedOf(events) == old(InvokedOf(events))
    {
      FinishedMore(graph, events, e);
      InvokedMore(events, e);
      events := events + [e];
    }

    method ReportFirst()
      requires StreamsPlain() && partials != []
      modifies `partials, `events
      ensures partials == old(partials)[1..] && events == old(events) + [NodeFinished(old(partials)[0])]
      ensures Seen() == old(Seen()) && StreamsPlain() && InvokedOf(events) == old(InvokedOf(events))
    {
      hide FinishedOf, InvokedOf;
      assert partials == [partials[0]] + partials[1..];
      Report(NodeFinished(partials[0]));
      partials := partials[1..];
    }

    /** Streams that are used up are reported, in their order, after a message: those before
        the first that is not. */
    method ReportDrained(i: nat)
      requires StreamsPlain()
      modifies `partials, `events
      ensures var n := Drains(drained, i, 0, old(partials));
        partials == old(partials)[n..] && events == old(events) + Reported(old(partials)[..n])
      ensures Seen() == old(Seen()) && StreamsPlain() && InvokedOf(events) == old(InvokedOf(events))
    {
      hide InvokedOf, Drains, Reported, Seen, StreamsPlain;
      ghost var was := partials;
      var k := 0;
      assert Reported(was[..0]) == [];
      while partials != [] && drained(i, k, partials[0])
        invariant k <= |was| && partials == was[k..]
        invariant Drains(drained, i, 0, was[0..]) == k + Drains(drained, i, k, was[k..])
        invariant events == old(events) + Reported(was[..k])
        invariant Seen() == old(Seen()) && StreamsPlain() && InvokedOf(events) == old(InvokedOf(events))
        decreases |partials|
      {
        DrainsNext(drained, i, k, was);
        ReportFirst();
        k := k + 1;
      }
      DrainsStop(drained, i, k, was);
      assert was[0..] == was;
    }

    /** A component that is no container is reported once it has stopped streaming; until then
        it is pending. A fatal error anywhere in the batch ends its streaming. */
    method ReportNode(id: Id, streaming: bool)
      requires StreamsPlain()
      modifies `partials, `events
      ensures Seen() == old(Seen()) + (if Container(graph(id).kind) then multiset{} else multiset{id}) && StreamsPlain()
      ensures InvokedOf(events) == old(InvokedOf(events))
      ensures events == old(events) + if Container(graph(id).kind) || (streaming && error == "") then [] else [NodeFinished(id)]
      ensures partials == old(partials) + if !Container(graph(id).kind) && streaming && error == "" then [id] else []
    {
      hide FinishedOf, InvokedOf;
      if !Container(graph(id).kind) {
        if streaming && error == "" {
          partials := partials + [id];
        } else {
          Report(NodeFinished(id));
        }
      }
    }

    /** `_extend_path` when no handler has jumped. */
    method ExtendPath(ids: seq<Id>)
      requires path != []
      modifies `path
      ensures path == Extend(old(path), ids)
    {
      for k := 0 to |ids|
        invariant path != [] && Extend(path, ids[k..]) == Extend(old(path), ids)
      {
        assert ids[k..][0] == ids[k] && ids[k..][1..] == ids[k + 1..];
        if path[|path| - 1] != ids[k] {
          path := path + [ids[k]];
        }
      }
    }

    /** The message events of a message component, and the streams it used up. */
    method ReportMessage(i: nat, id: Id)
      requires StreamsPlain()
      modifies `partials, `events
      ensures var n := Drains(drained, i, 0, old(partials));
        && partials == old(partials)[n..]
        && events == old(events) + ([Event.Message(id), MessageEnd(id)] + Reported(old(partials)[..n]))
      ensures Seen() == old(Seen()) && StreamsPlain() && InvokedOf(events) == old(InvokedOf(events))
    {
      hide FinishedOf, InvokedOf, Drains, Reported, StreamsPlain, Seen;
      Report(Event.Message(id));
      Report(MessageEnd(id));
      ReportDrained(i);
    }

    /** An error jumps, is answered with a default, or is fatal. */
    method HandleError(c: Component, o: Outcome, id: Id) returns (jumped: bool)
      requires path != []
      modifies `path, `error, `events
      ensures jumped <==> Goto(c, o) != []
      ensures path == if jumped then old(path) + Goto(c, o) else old(path)
      ensures error == if Fatal(c, o) then o.error else old(error)
      ensures error == "" <==> old(error) == "" && !Fatal(c, o)
      ensures events == old(events) + if Answered(c, o) then [Event.Message(id), MessageEnd(id)] else []
      ensures Seen() == old(Seen()) && InvokedOf(events) == old(InvokedOf(events))
    {
      hide FinishedOf, InvokedOf;
      jumped := false;
      if o.error != "" {
        if c.handler.Some? && c.handler.value.goto != [] {
          path := path + c.handler.value.goto;
          jumped := true;
        } else if c.handler.Some? && c.handler.value.defaultValue {
          Report(Event.Message(id));
          Report(MessageEnd(id));
        } else {
          error := o.error;
        }
      }
    }

    /** The end of an item's container is reported for the container. */
    method ReportExit(c: Component, o: Outcome)
      requires Item(c.kind) ==> c.parent.Some? && Container(graph(c.parent.value).kind)
      modifies `events
      ensures Seen() == old(Seen()) && InvokedOf(events) == old(InvokedOf(events))
      ensures events == old(events) + if Item(c.kind) && o.ended then [NodeFinished(c.parent.value)] else []
    {
      hide InvokedOf;
      if Item(c.kind) && o.ended {
        Report(NodeFinished(c.parent.value));
      }
    }

    /** What post-processing reports, and its error handling. */
    method ReportAll(i: nat, id: Id) returns (jumped: bool)
      requires WellFormed(graph) && path != [] && StreamsPlain()
      modifies `path, `error, `events, `partials
      ensures Item(graph(id).kind) ==> graph(id).parent.Some?
      ensures jumped <==> Goto(graph(id), outcome(i, id)) != []
      ensures path == if jumped then old(path) + Goto(graph(id), outcome(i, id)) else old(path)
      ensures error == if Fatal(graph(id), outcome(i, id)) then outcome(i, id).error else old(error)
      ensures error == "" <==> old(error) == "" && !Fatal(graph(id), outcome(i, id))
      ensures var n := Drains(drained, i, 0, old(partials));
        && events == old(events) + StepEvents(graph(id), outcome(i, id), id, error, old(partials), n)
        && partials == StepPending(graph(id), outcome(i, id), id, error, old(partials), n)
      ensures Seen() == old(Seen()) + (if Container(graph(id).kind) then multiset{} else multiset{id})
      ensures StreamsPlain() && InvokedOf(events) == old(InvokedOf(events))
    {
      hide FinishedOf, InvokedOf, Seen, Goto, Fatal, Answered, StreamsPlain, Drains, Reported;
      var c, o := graph(id), outcome(i, id);
      ghost var a, b, x, y: seq<Event> := [], [], [], [];
      if c.kind.Message? {
        ReportMessage(i, id);
        a := [Event.Message(id), MessageEnd(id)] + Reported(old(partials)[..Drains(drained, i, 0, old(partials))]);
      }
      assert events == old(events) + a;
      jumped := HandleError(c, o, id);
      b := if Answered(c, o) then [Event.Message(id), MessageEnd(id)] else [];
      ReportNode(id, o.streaming && !c.kind.Message?);
      x := if Container(c.kind) || Streams(c, o, error) then [] else [NodeFinished(id)];
      ReportExit(c, o);
      y := if Item(c.kind) && o.ended then [NodeFinished(c.parent.value)] else [];
      FourParts(old(events), a, b, x, y);
    }

    /** Post-processing of the component at position i: the exact path, error, reports and
        pending streams. */
    method PostProcess(i: nat)
      requires WellFormed(graph) && i < |path| && StreamsPlain()
      modifies `path, `error, `events, `partials
      ensures path == Advance(graph, old(path), old(path)[i], outcome(i, old(path)[i]))
      ensures error == if Fatal(graph(old(path)[i]), outcome(i, old(path)[i])) then outcome(i, old(path)[i]).error else old(error)
      ensures error == "" <==> old(error) == "" && !Fatal(graph(old(path)[i]), outcome(i, old(path)[i]))
      ensures Item(graph(old(path)[i]).kind) ==> graph(old(path)[i]).parent.Some?
      ensures var id, n := old(path)[i], Drains(drained, i, 0, old(partials));
        && events == old(events) + StepEvents(graph(id), outcome(i, id), id, error, old(partials), n)
        && partials == StepPending(graph(id), outcome(i, id), id, error, old(partials), n)
      ensures Seen() == old(Seen()) + (if Container(graph(old(path)[i]).kind) then multiset{} else multiset{old(path)[i]})
      ensures StreamsPlain() && InvokedOf(events) == old(InvokedOf(events))
    {
      hide FinishedOf, InvokedOf, Extend, Seen, Goto, Fatal, Branch, StreamsPlain, Drains, StepEvents, StepPending;
      var id := path[i];
      var jumped := ReportAll(i, id);
      if !jumped {
        ExtendPath(Branch(graph, id, outcome(i, id)));
        assert path == Extend(old(path), Branch(graph, id, outcome(i, id)));
      }
    }

    /** Post-processing of a whole batch. */
    method PostProcessAll(lo: nat)
      requires WellFormed(graph) && lo <= |path| && path != [] && StreamsPlain() && error == ""
      modifies `path, `error, `events, `partials
      ensures path == AdvanceAll(graph, outcome, old(path), lo, old(|path|)) && old(path) <= path
      ensures Seen() == old(Seen()) + Counted(graph, old(path)[lo..]) && StreamsPlain()
      ensures InvokedOf(events) == old(InvokedOf(events))
      ensures error == "" <==> forall i :: lo <= i < old(|path|) ==> !Fatal(graph(old(path)[i]), outcome(i, old(path)[i]))
    {
      hide Seen, StreamsPlain, WellFormed, Advance, AdvanceAll, Counted, InvokedOf, StepEvents, StepPending, Drains, Fatal;
      ghost var p := path;
      var end := |path|;
      AdvanceNone(graph, outcome, p, lo);
      for i := lo to end
        invariant path == AdvanceAll(graph, outcome, p, lo, i) && p <= path
        invariant Seen() == old(Seen()) + Counted(graph, p[lo..i]) && StreamsPlain()
        invariant InvokedOf(events) == old(InvokedOf(events))
        invariant error == "" <==> forall j :: lo <= j < i ==> !Fatal(graph(p[j]), outcome(j, p[j]))
      {
        PostProcess(i);
        AdvanceNext(graph, outcome, p, lo, i);
        CountedMore(graph, p[lo..i], p[i]);
        assert p[lo..i] + [p[i]] == p[lo..i + 1];
      }
      assert p[lo..end] == p[lo..];
    }

    /** The batch at idx as the path sees it: what is admitted, and what is appended after it. */
    ghost function Admitted(): seq<Id>
      requires idx <= |path|
      reads `path, `idx
    {
      Admit(graph, path[..idx], path[idx..], Unchecked())
    }

    ghost function Appended(): seq<Id>
      requires idx <= |path| && WellFormed(graph) && Admitted() != []
      reads `path, `idx
    {
      AdvanceAll(graph, outcome, Admitted(), idx, |Admitted()|)
    }

    /** Some admitted component of the batch fails without a handler. */
    ghost predicate Fails()
      requires idx <= |path|
      reads `path, `idx
    {
      exists i :: idx <= i < |Admitted()| && Fatal(graph(Admitted()[i]), outcome(i, Admitted()[i]))
    }

    lemma SeenAfter(before: seq<Event>, ids: seq<Id>, invoked: bool)
      requires events == before + Each(ids, invoked)
      ensures Seen() == FinishedOf(graph, before) + multiset(partials)
    {
      EachUncounted(graph, before, ids, invoked);
    }

    /** `node_started` for every pending entry, whether it will be admitted or not. */
    method Announce()
      requires idx <= |path|
      modifies `events
      ensures events == old(events) + Each(path[idx..], false) && Seen() == old(Seen())
      ensures InvokedOf(events) == old(InvokedOf(events))
    {
      hide FinishedOf, InvokedOf, Each;
      ghost var all := path[idx..];
      for i := idx to |path|
        invariant events == old(events) + Each(path[idx..i], false)
      {
        EachNext(path, idx, i, false);
        events := events + [NodeStarted(path[i])];
      }
      assert path[idx..|path|] == all;
      SeenAfter(old(events), all, false);
      EachInvoked(old(events), all, false);
    }

    /** A run that fails is cut back to where the batch began. */
    method Fail()
      requires idx <= |path|
      modifies `path, `events
      ensures path == old(path)[..idx]
      ensures events == old(events) + if Canceled(error) then [WorkflowFinished] else []
      ensures Seen() == old(Seen()) && InvokedOf(events) == old(InvokedOf(events))
    {
      path := path[..idx];
      if Canceled(error) {
        Report(WorkflowFinished);
      }
    }

    /** A run with pending user forms hands their inputs out and keeps what is pending. */
    method Suspend()
      requires idx <= |path|
      modifies `path, `events
      ensures path == Forms(graph, old(path)[idx..], true) + Forms(graph, old(path)[idx..], false)
      ensures events == old(events) + Each(Forms(graph, old(path)[idx..], true), true) + [UserInputs]
      ensures Seen() == old(Seen()) && InvokedOf(events) == old(InvokedOf(events)) + Forms(graph, old(path)[idx..], true)
    {
      hide FinishedOf, InvokedOf, Each, Forms;
      var forms, others := SplitForms(path[idx..]);
      path := forms + others;
      for k := 0 to |forms|
        invariant events == old(events) + Each(forms[..k], true) && path == forms + others
      {
        EachNext(forms, 0, k, true);
        assert forms[0..k] == forms[..k] && forms[0..k + 1] == forms[..k + 1];
        events := events + [Invoked(forms[k])];
      }
      assert forms[..|forms|] == forms;
      SeenAfter(old(events), forms, true);
      EachInvoked(old(events), forms, true);
      Report(UserInputs);
    }

    /** Forms and other entries, each in its order. */
    method SplitForms(ids: seq<Id>) returns (forms: seq<Id>, others: seq<Id>)
      ensures forms == Forms(graph, ids, true) && others == Forms(graph, ids, false)
    {
      forms, others := [], [];
      for i := 0 to |ids|
        invariant forms == Forms(graph, ids[..i], true) && others == Forms(graph, ids[..i], false)
      {
        assert ids[..i + 1][..i] == ids[..i];
        if graph(ids[i]).kind.UserFillUp? {
          forms := forms + [ids[i]];
        } else {
          others := others + [ids[i]];
        }
      }
      assert ids[..|ids|] == ids;
    }

    /** Admission, invocation and post-processing of the batch at idx. */
    method Execute() returns (end: nat)
      requires Between() && idx < |path| && error == "" && Admitted() != []
      modifies `path, `events, `error, `partials
      ensures path == old(Appended()) && end == old(|Admitted()|) && Unchecked() == old(Unchecked())
      ensures error != "" <==> old(Fails())
      ensures Seen() == old(Seen()) + Counted(graph, old(Admitted())[idx..]) && StreamsPlain()
      ensures InvokedOf(events) == old(InvokedOf(events)) + old(Admitted())[idx..]
    {
      hide Seen, Counted, FinishedOf, InvokedOf, Licensed, Followed, AllReady, AdvanceAll, Admit, WellFormed, Accounted;
      Announce();
      RunBatch(idx, |path|);
      end := |path|;
      PostProcessAll(idx);
    }

    /** After a batch without a fatal error: a pending user form suspends the run; an empty
        pending part ends it. */
    method Conclude() returns (status: Status)
      requires Between() && error == ""
      modifies `path, `events
      ensures status == Suspended <==> exists id :: id in old(path)[idx..] && graph(id).kind.UserFillUp?
      ensures status == Suspended ==>
        path == Forms(graph, old(path)[idx..], true) + Forms(graph, old(path)[idx..], false)
      ensures status == Suspended ==> Told(old(path)[..idx], Forms(graph, old(path)[idx..], true))
      ensures status != Suspended ==> path == old(path) && Between()
      ensures status == Running ==> idx < |path|
      ensures status == Finished ==> idx == |path|
      ensures status != Failed
    {
      hide Seen, Steady, StreamsPlain, Counted, FinishedOf, InvokedOf, Forms;
      if exists id :: id in path[idx..] && graph(id).kind.UserFillUp? {
        Suspend();
        return Suspended;
      }
      if idx < |path| {
        return Running;
      }
      assert path[..idx] == path;
      path := path[..idx];
      Report(WorkflowFinished);
      return Finished;
    }

    lemma TurnKeeps()
      requires Between() && idx < |path|
      ensures WellFormed(graph) && first <= idx && Admitted() != [] && path[..idx] <= Admitted() <= Appended()
      ensures Steady(graph, outcome, Appended(), first, |Admitted()|, Unchecked())
      ensures Followed(graph, outcome, Admitted(), first, idx, |Admitted()|, Unchecked())
      ensures Reaches(graph, outcome, Appended(), idx, |Admitted()|)
      ensures first <= |Admitted()|
    {
      hide Accounted, StreamsPlain, Licensed, Followed, AllReady, Reaches;
      BatchKeeps(graph, outcome, path, first, idx, Unchecked());
      BatchReaches(graph, outcome, Admitted(), idx);
    }

    lemma TurnParts()
      requires Between() && idx < |path| && path[..idx] <= Admitted() && Admitted() != [] && WellFormed(graph) && first <= idx
      ensures |Admitted()| == first ==> Appended() == Admitted()
      ensures Admitted()[first..] == path[..idx][first..] + Admitted()[idx..]
      ensures Counted(graph, Admitted()[first..])
              == Counted(graph, path[..idx][first..]) + Counted(graph, Admitted()[idx..])
    {
      hide Accounted, StreamsPlain, Licensed, Followed, AllReady, Admit, AdvanceAll, Counted, Runnable;
      if |Admitted()| == first {
        AdvanceNone(graph, outcome, Admitted(), idx);
      }
      TailParts(graph, path[..idx], Admitted(), first);
    }

    /** A batch without a fatal error moves on to what it appended. */
    method Turn()
      requires Between() && idx < |path| && error == ""
      modifies `path, `error, `events, `idx, `partials
      ensures old(idx <= |path| && WellFormed(graph) && Admitted() != [])
      ensures path == old(Appended()) && Told(old(Admitted()), [])
      ensures error != "" <==> old(Fails())
      ensures error != "" ==> idx == old(idx) && idx <= |path| && path[..idx] == old(path)[..idx]
      ensures error == "" ==> idx == old(|Admitted()|) && idx <= |path| && path[..idx] == old(Admitted()) && Between()
      ensures Unchecked() == old(Unchecked())
    {
      hide Seen, StreamsPlain, Counted, InvokedOf, AdvanceAll, Admit, Fails, Steady, WellFormed, Appended, Admitted;
      TurnKeeps();
      TurnParts();
      ghost var q := Admitted();
      var end := Execute();
      if error == "" {
        idx := end;
        assert path[..idx] == q;
      }
    }

    /** One turn of the loop: a batch is admitted, invoked and post-processed. However it ends,
        what it invoked and reported is told. */
    method Batch() returns (status: Status)
      requires Between() && idx < |path| && error == ""
      modifies `path, `error, `events, `idx, `partials
      ensures old(Admitted()) != []
      ensures status == Failed <==> old(Fails())
      ensures status == Failed ==> path == old(path)[..old(idx)] && error != "" && Told(old(Admitted()), [])
      ensures status == Suspended ==>
        var pending := old(Appended())[old(|Admitted()|)..];
        && (exists id :: id in pending && graph(id).kind.UserFillUp?)
        && path == Forms(graph, pending, true) + Forms(graph, pending, false)
        && Told(old(Admitted()), Forms(graph, pending, true))
      ensures status == Running || status == Finished ==>
        path == old(Appended()) && idx == old(|Admitted()|) && Between() && error == ""
        && path[..idx] == old(Admitted()) && Unchecked() == old(Unchecked())
        && Reaches(graph, outcome, path, old(idx), idx)
        && forall id :: id in path[idx..] ==> !graph(id).kind.UserFillUp?
      ensures status == Running ==> idx < |path|
      ensures status == Finished ==> idx == |path|
    {
      hide Steady, StreamsPlain, AdvanceAll, Admit, Fails, Forms, Seen, InvokedOf, Counted, Reaches;
      TurnKeeps();
      Turn();
      if error != "" {
        Fail();
        return Failed;
      }
      status := Conclude();
    }

    /** What a failed run keeps: processed entries only, each ready and licensed. */
    ghost predicate Processed()
      reads `path, `first
    {
      first <= |path| && AllReady(graph, path, first, |path|, Unchecked()) && Licensed(graph, outcome, path, first, |path|)
    }

    lemma CutProcessed(p: seq<Id>, f: nat, unchecked: bool)
      requires Steady(graph, outcome, p, first, f, unchecked) && path == p[..f] && (path != [] ==> Unchecked() == unchecked)
      ensures Processed()
    {
      hide Runnable, Licenses;
      CutSteady(graph, outcome, p, first, f, unchecked);
    }

    /** Every component that a processed entry licenses has followed it, on the path or, after
        a suspension, among what is still pending, unless it missed an input. A failed batch
        was invoked but not processed. */
    ghost predicate Pursued(trace: seq<Id>, status: Status, unchecked: bool)
      reads `path, `first
    {
      match status
      case Suspended => Followed(graph, outcome, trace + path, first, |trace|, |trace|, unchecked)
      case Failed => path <= trace && Followed(graph, outcome, trace, first, |path|, |trace|, unchecked)
      case _ => trace <= path && Followed(graph, outcome, path, first, |trace|, |trace|, unchecked)
    }

    /** The course of a run so far: every invoked component was ready when it was invoked and
        was licensed by an earlier one, what the processed ones license was pursued, and every
        one is reported or pending; a suspended run has invoked the pending forms as well, and
        what it keeps was licensed. */
    ghost predicate Course(trace: seq<Id>, status: Status, unchecked: bool)
      reads `path, `first, `events, `partials
    {
      && Told(trace, if status == Suspended then Forms(graph, path, true) else [])
      && AllReady(graph, trace, first, |trace|, unchecked) && Licensed(graph, outcome, trace, first, |trace|)
      && Pursued(trace, status, unchecked)
      && (status == Suspended ==> PendingLicensed(graph, outcome, trace, first, path))
    }

    /** The course of the run after a batch. */
    lemma BatchCourse(p: seq<Id>, trace: seq<Id>, unchecked: bool, status: Status)
      requires Steady(graph, outcome, p, first, |trace|, unchecked) && trace <= p && (|trace| == first ==> p == trace)
      requires status == Suspended ==>
        path == Forms(graph, p[|trace|..], true) + Forms(graph, p[|trace|..], false)
        && Told(trace, Forms(graph, p[|trace|..], true))
      requires status != Suspended ==> Told(trace, [])
      requires status == Failed ==> path <= trace && Followed(graph, outcome, trace, first, |path|, |trace|, unchecked)
      requires status == Running || status == Finished ==> path == p
      ensures Course(trace, status, unchecked)
    {
      hide Told, AllReady, Licensed, Steady, PendingLicensed, Followed, Forms;
      CutSteady(graph, outcome, p, first, |trace|, unchecked);
      SteadyFollowed(graph, outcome, p, first, |trace|, unchecked);
      assert p[..|trace|] == trace;
      if status == Suspended {
        var pending := p[|trace|..];
        FormsKept(graph, pending);
        FormsFirst(graph, pending);
        AppendedLicensed(graph, outcome, p, first, |trace|, unchecked);
        ReorderedLicensed(graph, outcome, trace, first, pending, path);
        ReorderedFollowed(graph, outcome, p, first, |trace|, unchecked, path);
      }
    }

    /** A batch as the whole run sees it; `before` is the part of the path that the run found. */
    method Step(ghost before: seq<Id>, ghost unchecked: bool) returns (status: Status, ghost trace: seq<Id>)
      requires Between() && idx < |path| && error == "" && Unchecked() == unchecked
      requires |before| == first && before <= path
      modifies `path, `error, `events, `idx, `partials
      ensures status == Running || status == Finished ==>
        Between() && error == "" && trace == path[..idx] && Unchecked() == unchecked
      ensures status == Running ==> idx < |path|
      ensures status == Finished ==> idx == |path|
      ensures status == Failed ==> error != "" && Processed()
      ensures Course(trace, status, unchecked) && before <= trace
      ensures status != Suspended ==> before <= path
    {
      hide Steady, Told, StreamsPlain, AdvanceAll, Admit, Fails, Forms, WellFormed, Processed, Admitted, Appended, Course, Followed, Reaches;
      TurnKeeps();
      TurnParts();
      ghost var p, f, after := path, idx, Appended();
      trace := Admitted();
      assert before <= p[..f];
      status := Batch();
      BatchCourse(after, trace, unchecked, status);
      if status == Failed {
        CutProcessed(p, f, unchecked);
      }
    }

    /** `run`, for at most `limit` batches. However it ends, the trace is what it invoked after
        the part of the path that was there before. What was on the path before stays there,
        until a suspension drops it for the pending entries. */
    method Run(limit: nat) returns (status: Status, ghost trace: seq<Id>)
      requires WellFormed(graph)
      modifies this
      ensures var start := StartPath(formId, old(path));
        && first == |start| - 1 && start[..first] <= trace
        && Course(trace, status, formId(start[0]))
        && (status != Suspended ==> start[..first] <= path)
      ensures status == Running || status == Finished ==> Between() && error == "" && trace == path[..idx]
      ensures status == Finished ==> idx == |path|
      ensures status == Failed ==> error != "" && Processed()
    {
      hide Steady, Told, StreamsPlain, WellFormed, Processed, Between, Course;
      Start();
      ghost var before, unchecked := path[..first], Unchecked();
      StartCourse();
      status, trace := Running, path[..idx];
      for n := 0 to limit
        invariant Between() && error == "" && idx < |path| && status == Running && trace == path[..idx]
        invariant |before| == first && before <= path && Unchecked() == unchecked
        invariant Course(trace, status, unchecked) && before <= trace
      {
        status, trace := Step(before, unchecked);
        if status != Running {
          return;
        }
      }
    }

    lemma StartCourse()
      requires Between() && idx < |path|
      ensures Course(path[..idx], Running, Unchecked())
    {
      hide Steady, Told, AllReady, Licensed, Followed;
      CutSteady(graph, outcome, path, first, idx, Unchecked());
      SteadyFollowed(graph, outcome, path, first, idx, Unchecked());
    }
  }

  /** However a run ends, every component that it invoked, other than a beginning or a form, had
      all its inputs earlier on the trace, unless the path begins at a user form. */
  lemma InvokedHadInputs(c: Canvas, trace: seq<Id>, status: Status, n: nat, k: nat)
    requires c.Course(trace, status, false) && n < |trace| - c.first
    ensures n < |InvokedOf(c.events)| && InvokedOf(c.events)[n] == trace[c.first + n]
    ensures c.graph(trace[c.first + n]).kind !in {Begin, UserFillUp} && k < |c.graph(trace[c.first + n]).inputs| ==>
      c.graph(trace[c.first + n]).inputs[k] in trace[..c.first + n]
  {
    assert Runnable(c.graph, trace[c.first + n], trace[..c.first + n], false);
  }

  /** A finished run leaves out no component that could run: what an executed component licenses
      is executed as well, not before it, if its inputs were there when that one had run. */
  lemma NothingLeftOut(c: Canvas, trace: seq<Id>, unchecked: bool, i: nat, next: Id)
    requires c.Course(trace, Finished, unchecked) && c.path == trace && c.first <= i < |trace|
    requires Licenses(c.graph, trace[i], c.outcome(i, trace[i]), next) && Runnable(c.graph, next, trace[..i + 1], unchecked)
    ensures next in trace[i..]
  {
    hide Licenses, Licensed, AllReady, Runnable, c.Told;
    FollowedAt(c.graph, c.outcome, trace, c.first, |trace|, |trace|, unchecked, i, next);
    if next !in trace[i..] {
      var m :| i < m <= |trace| && Missed(c.graph, trace, next, m, unchecked);
      StillRunnable(c.graph, next, trace[..i + 1], trace[..m], unchecked);
      assert false;
    }
  }

  /** On a path that does not begin at a user form, every executed component other than a
      beginning or a form has all its inputs earlier on the path. */
  lemma InputsComeFirst(c: Canvas, i: nat, k: nat)
    requires c.Between() && !c.formId(c.path[0]) && c.first <= i < c.idx
    requires c.graph(c.path[i]).kind !in {Begin, UserFillUp} && k < |c.graph(c.path[i]).inputs|
    ensures c.graph(c.path[i]).inputs[k] in c.path[..i]
  {
    assert Runnable(c.graph, c.path[i], c.path[..i], c.Unchecked());
  }

  /** Every entry a run appended is licensed by an earlier processed one. */
  lemma AppendedByProcessed(c: Canvas, j: nat) returns (i: nat)
    requires c.Between() && c.first < j < |c.path|
    ensures c.first <= i < j && i < c.idx && Licenses(c.graph, c.path[i], c.outcome(i, c.path[i]), c.path[j])
  {
    assert LicensedAt(c.graph, c.outcome, c.path, c.first, c.idx, j);
    i :| c.first <= i < j && i < c.idx && Licenses(c.graph, c.path[i], c.outcome(i, c.path[i]), c.path[j]);
  }
}
