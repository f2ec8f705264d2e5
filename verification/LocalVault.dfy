/** `local_secrets_vault`: stored categories, a session, and a cache of decrypted ones. */
module LocalVault {
  import opened Options

  type Section = map<string, string>
  type Categories = map<string, Section>
  type Key = string

  const SEALED: seq<string> := ["api_keys", "prompts", "connectors", "ragflow_creds"]

  /** Encrypted categories: decrypting with the key that encrypted them gives them back. */
  datatype Blob = Blob(key: Key, plain: Categories)

  datatype Session = Session(vault: bool, obsidian: bool)

  /** What persists: the files, and two entries of the session store that expire on their own. */
  datatype State = State(stored: Option<Blob>, session: Option<Session>, cache: Option<Categories>)

  datatype Result<+T> = Ok(value: T) | VaultError

  /** Sections offered for sealing; None stands for a value that is no dictionary. */
  type Update = map<string, Option<Section>>

  /** One thing that happens, with what the session store does meanwhile: `read` and the
      `...Write` flags say which calls to it succeed. */
  datatype Event =
    | Unlock(codeValid: bool, vault: bool, obsidian: bool, read: bool, sessionWrite: bool, cacheWrite: bool)
    | Seal(update: Update, read: bool, cacheWrite: bool)
    | Lock(sessionDelete: bool, cacheDelete: bool)
    | ExpireSession
    | ExpireCache

  // ------------------------------------------------- values

  function EmptyCategories(): Categories {
    map c | c in SEALED :: map[]
  }

  ghost predicate Complete(c: Categories) {
    forall name :: name in c <==> name in SEALED
  }

  /** Offered sections replace the current ones; other names and other values are ignored. */
  function Merge(current: Categories, update: Update): (r: Categories)
    requires Complete(current)
    ensures Complete(r)
  {
    map name | name in current :: if name in update && update[name].Some? then update[name].value else current[name]
  }

  /** Section by section: an offered one replaces the current one, everything else stays, and no
      name is added. */
  lemma MergeAt(current: Categories, update: Update, name: string)
    requires Complete(current)
    ensures name in ["api_keys", "prompts", "connectors", "ragflow_creds"] <==> name in Merge(current, update)
    ensures name in Merge(current, update) && name in update && update[name].Some? ==> Merge(current, update)[name] == update[name].value
    ensures name in Merge(current, update) && (name !in update || update[name].None?) ==> Merge(current, update)[name] == current[name]
  {
  }

  function Decrypt(blob: Blob, master: Option<Key>): Result<Categories> {
    if master == Some(blob.key) then Ok(blob.plain) else VaultError
  }

  predicate Unlocked(session: Option<Session>) {
    session.Some? && session.value.vault
  }

  // ------------------------------------------------- transitions

  function AfterUnlock(s: State, master: Option<Key>, e: Event): State
    requires e.Unlock?
  {
    if s.stored.None? || master != Some(s.stored.value.key) || !e.codeValid || !e.sessionWrite then s else
    var was := if e.read && s.session.Some? then s.session.value else Session(false, false);
    var now := Session(was.vault || e.vault, was.obsidian || e.obsidian);
    State(s.stored, Some(now), if now.vault && e.cacheWrite then Some(s.stored.value.plain) else s.cache)
  }

  function AfterSeal(s: State, master: Option<Key>, e: Event): State
    requires e.Seal? && (s.stored.Some? ==> Complete(s.stored.value.plain))
  {
    if master.None? || (s.stored.Some? && s.stored.value.key != master.value) then s else
    var plain := Merge(if s.stored.Some? then s.stored.value.plain else EmptyCategories(), e.update);
    State(Some(Blob(master.value, plain)), s.session,
          if s.stored.Some? && e.read && Unlocked(s.session) && e.cacheWrite then Some(plain) else s.cache)
  }

  function Next(s: State, master: Option<Key>, e: Event): State
    requires s.stored.Some? ==> Complete(s.stored.value.plain)
  {
    match e
    case Unlock(_, _, _, _, _, _) => AfterUnlock(s, master, e)
    case Seal(_, _, _) => AfterSeal(s, master, e)
    case Lock(session, cache) =>
      if !session then s else s.(session := None, cache := if cache then None else s.cache)
    case ExpireSession => s.(session := None)
    case ExpireCache => s.(cache := None)
  }

  // ------------------------------------------------- the vault

  /** The loop over the sealed categories. */
  method MergeSections(start: Categories, update: Update) returns (current: Categories)
    requires Complete(start)
    ensures current == Merge(start, update)
  {
    current := start;
    for i := 0 to |SEALED|
      invariant Complete(current)
      invariant forall j :: 0 <= j < i ==> current[SEALED[j]] == Merge(start, update)[SEALED[j]]
      invariant forall name :: name in current && name !in SEALED[..i] ==> current[name] == start[name]
    {
      var name := SEALED[i];
      assert SEALED[..i + 1] == SEALED[..i] + [name];
      if name in update && update[name].Some? {
        current := current[name := update[name].value];
      }
    }
    assert SEALED[..|SEALED|] == SEALED;
  }

  class Vault {
    const master: Option<Key>
    var stored: Option<Blob>
    var session: Option<Session>
    var cache: Option<Categories>

    constructor (master: Option<Key>)
      ensures this.master == master && Now() == State(None, None, None) && Valid()
    {
      this.master, stored, session, cache := master, None, None, None;
    }

    function Now(): State
      reads this
    {
      State(stored, session, cache)
    }

    ghost predicate Valid()
      reads this
    {
      Sane(Now())
    }

    /** `unlock_vault`. */
    method UnlockVault(e: Event) returns (r: Result<Session>)
      requires Valid() && e.Unlock?
      modifies this
      ensures Now() == Next(old(Now()), master, e) && Valid()
      ensures r.Ok? ==> session == Some(r.value) && (r.value.vault ==> cache == Some(stored.value.plain))
    {
      if stored.None? || master.None? || master.value != stored.value.key || !e.codeValid {
        return VaultError;
      }
      var now := if e.read && session.Some? then session.value else Session(false, false);
      if e.vault {
        now := now.(vault := true);
      }
      if e.obsidian {
        now := now.(obsidian := true);
      }
      if !e.sessionWrite {
        return VaultError;
      }
      session := Some(now);
      if now.vault {
        var plain := Decrypt(stored.value, master);
        if !e.cacheWrite {
          return VaultError;
        }
        cache := Some(plain.value);
      }
      return Ok(now);
    }

    /** `seal_categories`; a vault that does not exist yet is created. */
    method SealCategories(e: Event) returns (r: Result<()>)
      requires Valid() && e.Seal?
      modifies this
      ensures Now() == Next(old(Now()), master, e) && Valid()
    {
      if master.None? {
        return VaultError;
      }
      var current := EmptyCategories();
      if stored.Some? {
        var plain := Decrypt(stored.value, master);
        if plain.VaultError? {
          return VaultError;
        }
        current := plain.value;
      }
      current := MergeSections(current, e.update);
      var existed := stored.Some?;
      stored := Some(Blob(master.value, current));
      if existed && e.read && Unlocked(session) {
        if !e.cacheWrite {
          return VaultError;
        }
        cache := Some(current);
      }
      return Ok(());
    }

    /** `lock_vault`; when the first deletion fails the second is not tried. */
    method LockVault(e: Event)
      requires Valid() && e.Lock?
      modifies `session, `cache
      ensures Now() == Next(old(Now()), master, e) && Valid()
      ensures e.sessionDelete ==> !Unlocked(session)
    {
      if e.sessionDelete {
        session := None;
        if e.cacheDelete {
          cache := None;
        }
      }
    }

    /** `get_category`; the flags say whether the session and the cache can be read. */
    method GetCategory(category: string, sessionRead: bool, cacheRead: bool) returns (r: Result<Section>)
      requires Valid()
      ensures category !in SEALED || !sessionRead || !Unlocked(session) ==> r == Ok(map[])
      ensures category in SEALED && sessionRead && Unlocked(session) ==>
        r == if cacheRead && cache.Some? && category in cache.value then Ok(cache.value[category])
             else if Decrypt(stored.value, master).Ok? then Ok(stored.value.plain[category]) else VaultError
      ensures Coherent(Now()) && category in SEALED && Unlocked(session) && r.Ok? && sessionRead ==>
        r == Ok(stored.value.plain[category])
    {
      if category !in SEALED || !sessionRead || !Unlocked(session) {
        return Ok(map[]);
      }
      if cacheRead && cache.Some? && category in cache.value {
        return Ok(cache.value[category]);
      }
      var plain := Decrypt(stored.value, master);
      if plain.VaultError? {
        return VaultError;
      }
      return Ok(plain.value[category]);
    }
  }

  // ------------------------------------------------- coherence

  /** A vault is only unlocked once it exists; what is stored is complete. */
  ghost predicate Sane(s: State) {
    && (s.stored.Some? ==> Complete(s.stored.value.plain))
    && (Unlocked(s.session) ==> s.stored.Some?)
  }

  /** While the session says the vault is unlocked, a cache holds what is stored. */
  ghost predicate Coherent(s: State) {
    Unlocked(s.session) && s.cache.Some? ==> s.stored.Some? && s.cache.value == s.stored.value.plain
  }

  /** The session store served every call the event makes of it. */
  predicate Served(e: Event) {
    match e
    case Unlock(_, _, _, _, _, cacheWrite) => cacheWrite
    case Seal(_, read, cacheWrite) => read && cacheWrite
    case _ => true
  }

  /** The event changes what the cache should hold, or who may see it, but not the cache. */
  ghost predicate LeavesStale(s: State, master: Option<Key>, e: Event)
    requires Sane(s)
  {
    && !Served(e) && s.cache.Some?
    && match e
       case Unlock(valid, vault, _, read, sessionWrite, _) =>
         && s.stored.Some? && master == Some(s.stored.value.key) && valid && sessionWrite
         && (vault || (read && Unlocked(s.session))) && s.cache.value != s.stored.value.plain
       case Seal(update, _, _) =>
         && Unlocked(s.session) && master == Some(s.stored.value.key)
         && Merge(s.stored.value.plain, update) != s.cache.value
       case _ => false
  }

  /** A coherent state stays coherent exactly unless a failed call to the session store leaves
      a stale cache behind an unlocked session. */
  lemma StepCoherent(s: State, master: Option<Key>, e: Event)
    requires Sane(s) && Coherent(s)
    ensures Sane(Next(s, master, e))
    ensures Coherent(Next(s, master, e)) <==> !LeavesStale(s, master, e)
  {
  }

  function Run(s: State, master: Option<Key>, events: seq<Event>): State
    requires Sane(s)
    decreases |events|
  {
    if events == [] then s else
    SaneNext(s, master, events[0]);
    Run(Next(s, master, events[0]), master, events[1..])
  }

  lemma SaneNext(s: State, master: Option<Key>, e: Event)
    requires Sane(s)
    ensures Sane(Next(s, master, e))
  {
  }

  /** Over every run in which the session store serves its calls, whatever expires when, an
      unlocked session and a cache agree with the files. */
  lemma {:induction false} RunCoherent(s: State, master: Option<Key>, events: seq<Event>)
    requires Sane(s) && Coherent(s) && forall i :: 0 <= i < |events| ==> Served(events[i])
    ensures Sane(Run(s, master, events)) && Coherent(Run(s, master, events))
    decreases |events|
  {
    if events != [] {
      StepCoherent(s, master, events[0]);
      RunCoherent(Next(s, master, events[0]), master, events[1..]);
    }
  }

  /** Sealing while unlocked with a cache write that fails: the file is new, the cache is not,
      and `get_category` keeps serving the old section. */
  lemma StaleAfterFailedWrite(first: Section, second: Section)
    requires first != second
    ensures var events := [
        Seal(map["prompts" := Some(first)], true, true),
        Unlock(true, true, true, true, true, true),
        Seal(map["prompts" := Some(second)], true, false)];
      var t := Run(State(None, None, None), Some("key"), events);
      && Unlocked(t.session) && t.stored.Some? && t.cache.Some? && !Coherent(t)
      && "prompts" in t.stored.value.plain && t.stored.value.plain["prompts"] == second
      && "prompts" in t.cache.value && t.cache.value["prompts"] == first
  {
    var a := Seal(map["prompts" := Some(first)], true, true);
    var b := Unlock(true, true, true, true, true, true);
    var c := Seal(map["prompts" := Some(second)], true, false);
    var events := [a, b, c];
    var s0 := State(None, None, None);
    var m := Some("key");
    assert SEALED[1] == "prompts";
    var s1 := Next(s0, m, a);
    var s2 := Next(s1, m, b);
    var s3 := Next(s2, m, c);
    assert events[1..] == [b, c] && events[1..][1..] == [c] && [c][1..] == [];
    assert Run(s2, m, [c]) == s3;
    assert Run(s1, m, [b, c]) == s3 by { assert [b, c][1..] == [c]; }
    assert s3.cache.value["prompts"] != s3.stored.value.plain["prompts"];
  }

  // ------------------------------------------------- what a run stores, and who may see it

  function SectionOf(s: State, category: string): Section
    requires Sane(s)
  {
    if s.stored.Some? && category in s.stored.value.plain then s.stored.value.plain[category] else map[]
  }

  predicate Offers(e: Event, category: string) {
    e.Seal? && category in e.update && e.update[category].Some?
  }

  /** The section offered last, or the one at the start. */
  ghost function LastOffered(events: seq<Event>, category: string, start: Section): Section {
    if events == [] then start else
    var last := events[|events| - 1];
    if Offers(last, category) then last.update[category].value else LastOffered(events[..|events| - 1], category, start)
  }

  lemma {:induction false} LastOfferedFirst(events: seq<Event>, category: string, start: Section)
    requires events != []
    ensures LastOffered(events, category, start)
            == LastOffered(events[1..], category, if Offers(events[0], category) then events[0].update[category].value else start)
    decreases |events|
  {
    var front, rest := events[..|events| - 1], events[1..];
    if |events| > 1 {
      assert rest[|rest| - 1] == events[|events| - 1] && rest[..|rest| - 1] == front[1..];
      LastOfferedFirst(front, category, start);
    } else {
      assert rest == [] && front == [];
    }
  }

  /** The vault, if there is one, was made with this key. */
  predicate OwnKey(s: State, master: Key) {
    s.stored.Some? ==> s.stored.value.key == master
  }

  lemma StepStores(s: State, master: Key, e: Event, category: string)
    requires Sane(s) && OwnKey(s, master) && category in SEALED
    ensures Sane(Next(s, Some(master), e)) && OwnKey(Next(s, Some(master), e), master)
    ensures SectionOf(Next(s, Some(master), e), category)
            == if Offers(e, category) then e.update[category].value else SectionOf(s, category)
  {
    SaneNext(s, Some(master), e);
    if e.Seal? {
      MergeAt(if s.stored.Some? then s.stored.value.plain else EmptyCategories(), e.update, category);
    }
  }

  /** What is stored after a run is what was offered last, whatever was locked, unlocked, expired
      or failed in between. */
  lemma {:induction false} RunStores(s: State, master: Key, events: seq<Event>, category: string)
    requires Sane(s) && OwnKey(s, master) && category in SEALED
    ensures Sane(Run(s, Some(master), events))
    ensures SectionOf(Run(s, Some(master), events), category) == LastOffered(events, category, SectionOf(s, category))
    decreases |events|
  {
    if events != [] {
      hide Next, SectionOf, Sane, OwnKey;
      SaneNext(s, Some(master), events[0]);
      StepStores(s, master, events[0], category);
      RunStores(Next(s, Some(master), events[0]), master, events[1..], category);
      LastOfferedFirst(events, category, SectionOf(s, category));
    }
  }

  /** A cached section after a run that was served is the one offered last. */
  lemma RunServes(s: State, master: Key, events: seq<Event>, category: string)
    requires Sane(s) && Coherent(s) && OwnKey(s, master) && category in SEALED
    requires forall i :: 0 <= i < |events| ==> Served(events[i])
    ensures var t := Run(s, Some(master), events);
      Unlocked(t.session) && t.cache.Some? ==>
        category in t.cache.value && t.cache.value[category] == LastOffered(events, category, SectionOf(s, category))
  {
    RunStores(s, master, events, category);
    RunCoherent(s, Some(master), events);
  }

  /** A vault that was locked is unlocked by one event only: a valid code for the stored vault. */
  lemma CodeUnlocks(s: State, master: Option<Key>, e: Event)
    requires Sane(s) && !Unlocked(s.session)
    ensures Unlocked(Next(s, master, e).session) <==>
      && e.Unlock? && e.codeValid && e.sessionWrite && s.stored.Some? && master == Some(s.stored.value.key) && e.vault
  {
  }

  /** So over every run a vault that ends up unlocked had a valid code. */
  lemma {:induction false} OnlyCodesUnlock(s: State, master: Option<Key>, events: seq<Event>) returns (i: nat)
    requires Sane(s) && !Unlocked(s.session) && Unlocked(Run(s, master, events).session)
    ensures i < |events| && events[i].Unlock? && events[i].codeValid && events[i].vault
    decreases |events|
  {
    SaneNext(s, master, events[0]);
    hide Next, Unlocked;
    CodeUnlocks(s, master, events[0]);
    i := 0;
    if !Unlocked(Next(s, master, events[0]).session) {
      i := OnlyCodesUnlock(Next(s, master, events[0]), master, events[1..]);
      i := i + 1;
    }
  }
}
