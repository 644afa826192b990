/** Saving a player who goes on changing: the version counter that decides whether a save covers
    everything.

    Handlers change a section of the player and then count the version up; the one saver of the
    session reads the version first, copies the sections one by one, writes the database, drops
    the cache, and sets the version to zero only if it has not moved. Every event is one locked
    section or atomic operation; a run is any interleaving with any number of handlers. */
module SaveVersion {
  import opened Common

  /** The content of one locked section: position, stat with gold, inventory, quick slots. */
  type Content = seq<int>

  const SECTIONS: nat := 4

  type PlayerData = d: seq<Content> | |d| == 4 witness [[], [], [], []]

  datatype Saver =
    | Resting
    | Reading(version: nat, copied: seq<Content>)
    | Writing(version: nat, data: PlayerData)
    | Written(version: nat, data: PlayerData)
    | Dropped(version: nat)

  /** `pending`: handlers that have changed something and not counted the version up yet. */
  datatype State = State(current: PlayerData, version: nat, pending: set<int>, saver: Saver,
                         db: PlayerData, cache: Option<PlayerData>)

  datatype Event =
    | Mutate(tid: int, section: nat, content: Content)
    | Mark(tid: int)
    | BeginSave(force: bool)
    | Copy
    | WriteDb(ok: bool, stored: bool)
    | DropCache(ok: bool)
    | TryMark

  function Apply(s: State, e: Event): State {
    match e
    case Mutate(tid, k, content) =>
      if k >= SECTIONS then s else s.(current := s.current[k := content], pending := s.pending + {tid})
    case Mark(tid) => if tid !in s.pending then s else s.(version := s.version + 1, pending := s.pending - {tid})
    case BeginSave(force) =>
      if s.saver != Resting || (!force && s.version == 0) then s else s.(saver := Reading(s.version, []))
    case Copy =>
      (match s.saver
       case Reading(v, copied) =>
         if |copied| < SECTIONS then s.(saver := Reading(v, copied + [s.current[|copied|]]))
         else if |copied| == SECTIONS then s.(saver := Writing(v, copied))
         else s
       case _ => s)
    case WriteDb(ok, stored) =>
      (match s.saver
       case Writing(v, data) =>
         s.(db := if ok || stored then data else s.db, saver := if ok then Written(v, data) else Resting)
       case _ => s)
    case DropCache(ok) =>
      (match s.saver
       case Written(v, _) => s.(cache := if ok then None else s.cache, saver := if ok then Dropped(v) else Resting)
       case _ => s)
    case TryMark =>
      (match s.saver
       case Dropped(v) => s.(version := if s.version == v then 0 else s.version, saver := Resting)
       case _ => s)
  }

  function Run(s: State, es: seq<Event>): State
    decreases |es|
  {
    if es == [] then s else Run(Apply(s, es[0]), es[1..])
  }

  /** Nothing has changed since version `v` was read, and nothing is about to be counted. */
  predicate Untouched(s: State, v: nat) { s.version == v && s.pending == {} }

  predicate Stored(s: State) { s.db == s.current && (s.cache == None || s.cache == Some(s.current)) }

  ghost predicate Inv(s: State) {
    && (s.version == 0 && s.pending == {} ==> Stored(s))
    && match s.saver
       case Resting => true
       case Reading(v, copied) => v <= s.version && |copied| <= SECTIONS && (Untouched(s, v) ==> copied <= s.current)
       case Writing(v, data) => v <= s.version && (Untouched(s, v) ==> data == s.current)
       case Written(v, data) => v <= s.version && s.db == data && (Untouched(s, v) ==> data == s.current)
       case Dropped(v) => v <= s.version && s.cache == None && (Untouched(s, v) ==> s.db == s.current)
  }

  lemma ApplyKeeps(s: State, e: Event)
    requires Inv(s)
    ensures Inv(Apply(s, e))
  {
    if e.Mutate? && e.section < SECTIONS {
      assert e.tid in Apply(s, e).pending;
    }
    if e.Copy? && s.saver.Reading? && Untouched(s, s.saver.version) {
      var copied := s.saver.copied;
      assert |copied| == SECTIONS ==> copied == s.current;
      assert |copied| < SECTIONS ==> copied + [s.current[|copied|]] <= s.current;
    }
  }

  lemma {:induction false} EveryRunKeeps(s: State, es: seq<Event>)
    requires Inv(s)
    ensures Inv(Run(s, es))
    decreases |es|
  {
    if es != [] {
      ApplyKeeps(s, es[0]);
      EveryRunKeeps(Apply(s, es[0]), es[1..]);
    }
  }

  /** A player just loaded. */
  function Loaded(data: PlayerData, cached: bool): State {
    State(data, 0, {}, Resting, data, if cached then Some(data) else None)
  }

  /** Version zero with no change waiting to be counted means that the database, and the cache if
      there is one, hold exactly the current player, however torn the snapshots were. */
  lemma ZeroMeansStored(data: PlayerData, cached: bool, es: seq<Event>)
    requires var s := Run(Loaded(data, cached), es); s.version == 0 && s.pending == {}
    ensures var s := Run(Loaded(data, cached), es); Stored(s)
  {
    EveryRunKeeps(Loaded(data, cached), es);
  }

  // ---------------------------------------------------------------- one save, uninterrupted

  /** What one attempt at SavePlayerData comes to: the write fails, perhaps after it was stored; the
      cache cannot be dropped; or all went well. */
  datatype Attempt = WriteFailed(stored: bool) | CacheKept | AllSaved

  function Copies(n: nat): seq<Event> { if n == 0 then [] else [Copy] + Copies(n - 1) }

  /** The saver's events, from its first to its last, when nobody comes between. */
  function SaveEvents(force: bool, outcome: Attempt): seq<Event> {
    [BeginSave(force)] + (Copies(SECTIONS + 1)
    + [WriteDb(!outcome.WriteFailed?, outcome == WriteFailed(true)), DropCache(outcome == AllSaved), TryMark])
  }

  lemma RunFirst(s: State, e: Event, rest: seq<Event>)
    ensures Run(s, [e] + rest) == Run(Apply(s, e), rest)
  {
    assert ([e] + rest)[1..] == rest;
  }

  lemma {:induction false} RunSplits(s: State, before: seq<Event>, after: seq<Event>)
    ensures Run(s, before + after) == Run(Run(s, before), after)
    decreases |before|
  {
    if before == [] {
      assert before + after == after;
    } else {
      assert (before + after)[1..] == before[1..] + after;
      RunSplits(Apply(s, before[0]), before[1..], after);
    }
  }

  lemma {:induction false} CopiesRead(s: State, n: nat)
    requires n <= SECTIONS && s.saver.Reading? && s.saver.copied == s.current[..n]
    ensures Run(s, Copies(SECTIONS + 1 - n)) == s.(saver := Writing(s.saver.version, s.current))
    decreases SECTIONS - n
  {
    RunFirst(s, Copy, Copies(SECTIONS - n));
    if n < SECTIONS {
      assert s.current[..n] + [s.current[n]] == s.current[..n + 1];
      CopiesRead(Apply(s, Copy), n + 1);
    } else {
      assert s.current[..n] == s.current;
    }
  }

  lemma {:induction false} CopiesIdle(s: State, n: nat)
    requires s.saver == Resting
    ensures Run(s, Copies(n)) == s
  {
    if n > 0 {
      RunFirst(s, Copy, Copies(n - 1));
      CopiesIdle(s, n - 1);
    }
  }

  lemma RunThree(s: State, a: Event, b: Event, c: Event)
    ensures Run(s, [a, b, c]) == Apply(Apply(Apply(s, a), b), c)
  {
    assert [a, b, c] == [a] + ([b] + ([c] + []));
    RunFirst(s, a, [b] + ([c] + []));
    RunFirst(Apply(s, a), b, [c] + []);
    RunFirst(Apply(Apply(s, a), b), c, []);
  }

  /** The saver from start to end, section by section. */
  lemma SaveRuns(s: State, force: bool, outcome: Attempt)
    requires s.saver == Resting
    ensures Run(s, SaveEvents(force, outcome))
            == if !force && s.version == 0 then s
               else s.(db := if outcome == WriteFailed(false) then s.db else s.current,
                       cache := if outcome == AllSaved then None else s.cache,
                       version := if outcome == AllSaved then 0 else s.version)
  {
    var w := WriteDb(!outcome.WriteFailed?, outcome == WriteFailed(true));
    var d := DropCache(outcome == AllSaved);
    var u := Apply(s, BeginSave(force));
    RunFirst(s, BeginSave(force), Copies(SECTIONS + 1) + [w, d, TryMark]);
    RunSplits(u, Copies(SECTIONS + 1), [w, d, TryMark]);
    if u.saver == Resting { CopiesIdle(u, SECTIONS + 1); } else { CopiesRead(u, 0); }
    RunThree(Run(u, Copies(SECTIONS + 1)), w, d, TryMark);
  }

  // ---------------------------------------------------------------- the player and its store

  const MAX_SAVE_ATTEMPTS: nat := 3

  class PlayerStore {
    var db: PlayerData
    var cache: Option<PlayerData>

    constructor (data: PlayerData, cached: Option<PlayerData>)
      ensures db == data && cache == cached
    {
      db, cache := data, cached;
    }

    /** SavePlayerData, and what a failure may leave behind. */
    method SavePlayerData(characterId: int, data: PlayerData, outcome: Attempt) returns (ok: bool)
      modifies this
      ensures ok <==> characterId > 0 && outcome == AllSaved
      ensures db == if characterId <= 0 || outcome == WriteFailed(false) then old(db) else data
      ensures cache == if ok then None else old(cache)
    {
      if characterId <= 0 { return false; }
      if outcome.WriteFailed? {
        if outcome.stored { db := data; }
        return false;
      }
      db := data;
      if outcome.CacheKept? { return false; }
      cache := None;
      return true;
    }

    /** The final save task: up to three attempts, stopping at the first that succeeds. */
    method FinalSave(characterId: int, data: PlayerData, outcomes: seq<Attempt>) returns (ok: bool)
      requires |outcomes| == MAX_SAVE_ATTEMPTS
      modifies this
      ensures ok <==> characterId > 0 && AllSaved in outcomes
      ensures ok ==> db == data && cache == None
      ensures !ok ==> cache == old(cache) && (db == data || db == old(db))
    {
      ok := false;
      for i := 0 to MAX_SAVE_ATTEMPTS
        invariant !ok && (characterId > 0 ==> AllSaved !in outcomes[..i])
        invariant cache == old(cache) && (db == data || db == old(db))
      {
        ok := SavePlayerData(characterId, data, outcomes[i]);
        if ok { return true; }
        assert outcomes[..i + 1] == outcomes[..i] + [outcomes[i]];
      }
      assert outcomes[..MAX_SAVE_ATTEMPTS] == outcomes;
    }
  }

  /** A final save waiting for its worker. */
  datatype FinalTask = FinalTask(characterId: int, data: PlayerData)

  class FinalSaves {
    var pending: set<int>
    var queued: seq<FinalTask>

    constructor ()
      ensures pending == {} && queued == []
    {
      pending, queued := {}, [];
    }

    /** At most one final save for a character is pending; `accepts` says whether handing the task
        to the pool goes through without an exception. */
    method Submit(characterId: int, data: PlayerData, accepts: bool) returns (ok: bool)
      modifies this
      ensures ok <==> characterId > 0 && characterId !in old(pending) && accepts
      ensures pending == if ok then old(pending) + {characterId} else old(pending)
      ensures queued == if ok then old(queued) + [FinalTask(characterId, data)] else old(queued)
    {
      if characterId <= 0 || characterId in pending { return false; }
      pending := pending + {characterId};
      if !accepts {
        pending := pending - {characterId};
        return false;
      }
      queued := queued + [FinalTask(characterId, data)];
      return true;
    }

    /** However the task ended, the character is free for another final save. */
    method Complete(characterId: int)
      modifies this`pending
      ensures pending == old(pending) - {characterId}
    {
      pending := pending - {characterId};
    }
  }

  class Player {
    const characterId: int
    var sections: PlayerData
    var saveVersion: nat
    ghost var pending: set<int>

    /** The player between saves, beside a database row and a cached copy. */
    ghost function View(db: PlayerData, cache: Option<PlayerData>): State
      reads this
    {
      State(sections, saveVersion, pending, Resting, db, cache)
    }

    constructor (characterId: int, data: PlayerData)
      ensures this.characterId == characterId
      ensures forall cached: bool :: View(data, if cached then Some(data) else None) == Loaded(data, cached)
    {
      this.characterId, sections, saveVersion, pending := characterId, data, 0, {};
    }

    /** A handler changes one section under its lock. */
    method ChangeSection(ghost tid: int, section: nat, content: Content)
      requires section < SECTIONS
      modifies this
      ensures forall db, cache :: View(db, cache) == Apply(old(View(db, cache)), Mutate(tid, section, content))
      ensures sections == old(sections)[section := content] && saveVersion == old(saveVersion)
    {
      sections := sections[section := content];
      pending := pending + {tid};
    }

    /** And then counts the version up, which is the only thing that makes the change saveable. */
    method MarkSaveNeeded(ghost tid: int)
      requires tid in pending
      modifies this
      ensures forall db, cache :: View(db, cache) == Apply(old(View(db, cache)), Mark(tid))
      ensures saveVersion == old(saveVersion) + 1 && sections == old(sections)
    {
      saveVersion := saveVersion + 1;
      pending := pending - {tid};
    }

    method MakeSaveData() returns (version: nat, data: PlayerData)
      ensures version == saveVersion && data == sections
    {
      version := saveVersion;
      var copied: seq<Content> := [];
      for i := 0 to SECTIONS
        invariant copied == sections[..i]
      {
        copied := copied + [sections[i]];
      }
      data := copied;
    }

    method TryMarkSaved(version: nat) returns (ok: bool)
      modifies this`saveVersion
      ensures ok <==> old(saveVersion) == version
      ensures saveVersion == if ok then 0 else old(saveVersion)
    {
      ok := saveVersion == version;
      if ok { saveVersion := 0; }
    }

    /** One save with nobody coming between is the saver's run from its first event to its last; for
        a bad id it fails and changes nothing. */
    method Save(store: PlayerStore, force: bool, outcome: Attempt) returns (ok: bool)
      modifies this`saveVersion, store
      ensures View(store.db, store.cache)
              == if characterId > 0 then Run(old(View(store.db, store.cache)), SaveEvents(force, outcome))
                 else old(View(store.db, store.cache))
      ensures ok <==> (!force && old(saveVersion) == 0) || (characterId > 0 && outcome == AllSaved)
      ensures ok && (force || old(saveVersion) != 0) ==> saveVersion == 0 && store.db == sections && store.cache == None
      ensures !ok ==> saveVersion == old(saveVersion) && store.cache == old(store.cache)
    {
      SaveRuns(View(store.db, store.cache), force, outcome);
      if !force && saveVersion == 0 { return true; }
      var version, data := MakeSaveData();
      ok := store.SavePlayerData(characterId, data, outcome);
      if !ok { return false; }
      var marked := TryMarkSaved(version);
    }

    /** FinalizePlayer submits the whole current player unless the version says it is stored. */
    method SubmitFinalSave(saves: FinalSaves, accepts: bool) returns (submitted: bool)
      modifies saves
      ensures submitted <==> saveVersion != 0 && characterId > 0 && characterId !in old(saves.pending) && accepts
      ensures saves.pending == if submitted then old(saves.pending) + {characterId} else old(saves.pending)
      ensures saves.queued == if submitted then old(saves.queued) + [FinalTask(characterId, sections)]
                              else old(saves.queued)
    {
      if saveVersion == 0 { return false; }
      var _, data := MakeSaveData();
      submitted := saves.Submit(characterId, data, accepts);
    }
  }

  /** At finalization no task is left, so no handler is half-way and the saver rests: then either
      the database already holds the player, or the whole current player goes to the final save,
      and if any of its attempts succeeds the database holds it in the end. Only a refused
      submission of a changed player can lose anything. */
  method Finalize(ghost data: PlayerData, ghost cached: bool, ghost es: seq<Event>, player: Player, store: PlayerStore,
                  saves: FinalSaves, accepts: bool, outcomes: seq<Attempt>) returns (submitted: bool)
    requires var s := Run(Loaded(data, cached), es);
             s.pending == {} && player.sections == s.current && player.saveVersion == s.version
             && store.db == s.db && store.cache == s.cache
    requires |outcomes| == MAX_SAVE_ATTEMPTS
    modifies store, saves
    ensures submitted <==> player.saveVersion != 0 && player.characterId > 0
                           && player.characterId !in old(saves.pending) && accepts
    ensures saves.pending == old(saves.pending)
    ensures player.saveVersion == 0 || (submitted && AllSaved in outcomes) ==>
              store.db == player.sections && (store.cache == None || store.cache == Some(player.sections))
  {
    EveryRunKeeps(Loaded(data, cached), es);
    submitted := player.SubmitFinalSave(saves, accepts);
    if submitted {
      var task := saves.queued[|saves.queued| - 1];
      var _ := store.FinalSave(task.characterId, task.data, outcomes);
      saves.Complete(task.characterId);
    }
  }
}
